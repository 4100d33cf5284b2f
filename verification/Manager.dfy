/** The manager: a container of nodes, each one reader thread and the samplers attached to it.
    These are the critical sections of the manager's mutex, run one at a time; Protocol interleaves
    the same sections with the steps of the reader threads, and Refinement proves that they are the same. */
module ManagerSide {
  import opened Buffering
  import opened SamplerSide

  /** The part of a reader thread that the manager touches. */
  class Reader {
    var m_quit: bool
    var m_data_fn: bool

    constructor ()
      ensures !m_quit && !m_data_fn
    {
      m_quit, m_data_fn := false, false;
    }
  }

  /** A sampler copied into a node: it shares the queue and keeps the id it had when attached. */
  datatype Entry = Entry(sampler: Sampler, id: nat)

  datatype Node = Node(reader: Reader, entries: seq<Entry>)

  function KeyOf(s: Sampler): Key {
    Key(s.m_address, s.m_port, s.m_initialize)
  }

  predicate DistinctIds(entries: seq<Entry>) {
    forall i, j | 0 <= i < j < |entries| :: entries[i].id != entries[j].id
  }

  /** The samplers of a node are different objects. */
  predicate DistinctSamplers(entries: seq<Entry>) {
    forall i, j | 0 <= i < j < |entries| :: entries[i].sampler != entries[j].sampler
  }

  ghost function Samplers(entries: seq<Entry>): set<Sampler> {
    set i | 0 <= i < |entries| :: entries[i].sampler
  }

  ghost function Others(entries: seq<Entry>, id: nat): set<Entry> {
    set i | 0 <= i < |entries| && entries[i].id != id :: entries[i]
  }

  /** The entries whose queue would take one more batch. */
  ghost function Accepting(entries: seq<Entry>): (r: set<Entry>)
    reads Samplers(entries)
  {
    set i | 0 <= i < |entries| && Accepts(entries[i].sampler.m_list, entries[i].sampler.m_list_max) :: entries[i]
  }

  predicate ValidEntries(key: Key, entries: seq<Entry>, last: nat) {
    && DistinctSamplers(entries)
    && DistinctIds(entries)
    && forall i | 0 <= i < |entries| :: 0 < entries[i].id <= last && KeyOf(entries[i].sampler) == key
  }

  /** Every entry is listed under its sampler's own key, once, with an id given out once; every node
      has a reader of its own. */
  predicate ValidContainer(container: map<Key, Node>, last: nat) {
    && (forall k <- container :: ValidEntries(k, container[k].entries, last))
    && (forall k, k' | k in container && k' in container && k != k' :: container[k].reader != container[k'].reader)
  }

  lemma ServedStaysValid(container: map<Key, Node>, last: nat, key: Key, keep: set<Entry>)
    requires ValidContainer(container, last) && key in container
    ensures ValidContainer(container[key := Served(container[key], keep)], last)
  {
    FilterValid(key, container[key].entries, keep, last);
  }

  lemma GrownStaysValid(container: map<Key, Node>, last: nat, reader: Reader, s: Sampler)
    requires ValidContainer(container, last)
    requires ListedAs(container, s, 0)
    requires KeyOf(s) in container ==> container[KeyOf(s)].reader == reader
    requires KeyOf(s) !in container ==> forall k <- container :: container[k].reader != reader
    ensures var entries := if KeyOf(s) in container then container[KeyOf(s)].entries else [];
            var container' := container[KeyOf(s) := Node(reader, entries + [Entry(s, last + 1)])];
            ValidContainer(container', last + 1) && ListedAs(container', s, last + 1)
  {
    var entries := if KeyOf(s) in container then container[KeyOf(s)].entries else [];
    assert KeyOf(s) in container ==> ValidEntries(KeyOf(s), entries, last);
    assert ValidEntries(KeyOf(s), entries + [Entry(s, last + 1)], last + 1);
  }

  /** The entry with this id, and no other, is the sampler's; the id 0 says it has none. */
  predicate ListedAs(container: map<Key, Node>, s: Sampler, id: nat) {
    KeyOf(s) in container ==> forall i | 0 <= i < |container[KeyOf(s)].entries| ::
      container[KeyOf(s)].entries[i].id == id <==> container[KeyOf(s)].entries[i].sampler == s
  }

  lemma DroppedIsUnlisted(container: map<Key, Node>, s: Sampler, id: nat)
    requires ListedAs(container, s, id) && id != 0 && KeyOf(s) in container
    requires forall i | 0 <= i < |container[KeyOf(s)].entries| :: container[KeyOf(s)].entries[i].id != 0
    ensures var node := container[KeyOf(s)];
            ListedAs(container[KeyOf(s) := Served(node, Others(node.entries, id))], s, 0)
  {
    var entries := container[KeyOf(s)].entries;
    var rest := Filter(entries, Others(entries, id));
    forall i | 0 <= i < |rest|
      ensures rest[i].id != 0 && rest[i].sampler != s
    {
      FilterMember(entries, Others(entries, id), rest[i]);
    }
  }

  /** The effect of serving a node: the samplers that refuse are dropped. */
  function Served(node: Node, keep: set<Entry>): Node {
    Node(node.reader, Filter(node.entries, keep))
  }

  class Manager {
    var m_id: nat
    var m_container: map<Key, Node>

    constructor ()
      ensures m_id == 0 && m_container == map[]
    {
      m_id, m_container := 0, map[];
    }

    ghost predicate Valid()
      reads this
    {
      ValidContainer(m_container, m_id)
    }

    /** The sampler's id names its own entry, if it has one; Refinement derives it from the invariant of
        the protocol. */
    ghost predicate Consistent(s: Sampler)
      reads this, s
    {
      ListedAs(m_container, s, s.m_sampler_id)
    }

    /** Serves the sampler at one place of the list; the others are different objects. */
    static method ServeOne(entries: seq<Entry>, i: nat, data: Batch, kept: seq<Entry>, ghost keep: set<Entry>)
      returns (kept': seq<Entry>)
      requires DistinctSamplers(entries) && i < |entries|
      requires entries[i] in keep <==> Accepts(entries[i].sampler.m_list, entries[i].sampler.m_list_max)
      requires kept == Filter(entries[..i], keep)
      modifies entries[i].sampler`m_list
      ensures kept' == Filter(entries[..i + 1], keep)
      ensures entries[i].sampler.m_list == old(Kept(entries[i].sampler.m_list, entries[i].sampler.m_list_max, data))
      ensures forall j | 0 <= j < |entries| && j != i :: entries[j].sampler.m_list == old(entries[j].sampler.m_list)
    {
      hide Kept, Filter;
      var ok := entries[i].sampler.SetData(data);
      assert entries[..i + 1] == entries[..i] + [entries[i]];
      FilterAppend(entries[..i], entries[i], keep);
      kept' := kept;
      if ok {
        kept' := kept + [entries[i]];
      }
    }

    static ghost function Lists(entries: seq<Entry>): (r: seq<seq<Batch>>)
      reads Samplers(entries)
      ensures |r| == |entries| && forall j | 0 <= j < |entries| :: r[j] == entries[j].sampler.m_list
    {
      if entries == [] then [] else
      assert Samplers(entries[1..]) <= Samplers(entries) by {
        assert forall i | 0 <= i < |entries[1..]| :: entries[1..][i] == entries[i + 1];
      }
      [entries[0].sampler.m_list] + Lists(entries[1..])
    }

    /** Hands one batch to every sampler and returns the entries of those that took it. */
    static method Distribute(entries: seq<Entry>, data: Batch) returns (kept: seq<Entry>)
      requires DistinctSamplers(entries)
      modifies Samplers(entries)`m_list
      ensures kept == Filter(entries, old(Accepting(entries)))
      ensures forall i | 0 <= i < |entries| ::
                entries[i].sampler.m_list == old(Kept(entries[i].sampler.m_list, entries[i].sampler.m_list_max, data))
    {
      kept := [];
      ghost var keep := Accepting(entries);
      ghost var lists := Lists(entries);
      assert Filter(entries[..0], keep) == [];
      hide Kept, Accepts, Filter;
      var i := 0;
      while i < |entries|
        invariant 0 <= i <= |entries|
        invariant kept == Filter(entries[..i], keep)
        invariant forall j | i <= j < |entries| :: entries[j].sampler.m_list == lists[j]
        invariant forall j | 0 <= j < i ::
                    entries[j].sampler.m_list == Kept(lists[j], entries[j].sampler.m_list_max, data)
      {
        assert entries[i] in entries && entries[i].sampler in Samplers(entries);
        assert entries[i] in keep <==> Accepts(lists[i], entries[i].sampler.m_list_max);
        kept := ServeOne(entries, i, data, kept, keep);
        i := i + 1;
      }
      assert entries[..i] == entries;
    }

    /** Hands one message to every sampler of a node and drops those that refuse it; `empty` says
        that the raw message was empty, which is served only once the reader is quitting. */
    method SetDataSlot(key: Key, empty: bool, formatted: Batch) returns (result: bool)
      requires Valid()
      modifies this`m_container, (if key in m_container then Samplers(m_container[key].entries) else {})`m_list
      ensures Valid()
      ensures key !in old(m_container) ==> !result && m_container == old(m_container)
      ensures key in old(m_container) ==>
                var node := old(m_container[key]);
                if empty && !node.reader.m_quit then
                  && !result && m_container == old(m_container)
                  && forall i | 0 <= i < |node.entries| ::
                       node.entries[i].sampler.m_list == old(node.entries[i].sampler.m_list)
                else
                  && m_container == old(m_container)[key := Served(node, old(Accepting(node.entries)))]
                  && (forall i | 0 <= i < |node.entries| ::
                        node.entries[i].sampler.m_list
                        == old(Kept(node.entries[i].sampler.m_list, node.entries[i].sampler.m_list_max,
                                    if empty then map[] else formatted)))
                  && (result <==> m_container[key].entries != [])
    {
      assert key in m_container ==> ValidEntries(key, m_container[key].entries, m_id);
      hide ValidContainer, Filter, Kept;
      result := false;
      var in_data: Batch := map[];
      if !empty {
        in_data := formatted;
      }
      if key in m_container {
        var node := m_container[key];
        if !empty || node.reader.m_quit {
          ghost var keep := Accepting(node.entries);
          var kept := Distribute(node.entries, in_data);
          result := kept != [];
          ServedStaysValid(m_container, m_id, key, keep);
          m_container := m_container[key := Node(node.reader, kept)];
        }
      }
    }

    /** Attaches a sampler, starting the reader of its node if there is none; `started` says whether
        that thread reported a running connection in time. */
    method Attach(s: Sampler, started: bool) returns (ok: bool)
      requires Valid() && Consistent(s)
      modifies this, s`m_sampler_id, (if KeyOf(s) in m_container then {m_container[KeyOf(s)].reader} else {})`m_data_fn
      ensures Valid() && Consistent(s)
      ensures ok == old(s.m_sampler_id == 0 && s.m_port != 0
                        && if KeyOf(s) in m_container then !m_container[KeyOf(s)].reader.m_quit else started)
      ensures !ok ==> m_id == old(m_id) && m_container == old(m_container) && s.m_sampler_id == old(s.m_sampler_id)
      ensures !ok && KeyOf(s) in m_container ==>
                m_container[KeyOf(s)].reader.m_data_fn == old(m_container[KeyOf(s)].reader.m_data_fn)
      ensures ok ==>
                && m_id == old(m_id) + 1 == s.m_sampler_id
                && KeyOf(s) in m_container
                && var node := m_container[KeyOf(s)];
                && m_container == old(m_container)[KeyOf(s) := node]
                && node.entries == (if KeyOf(s) in old(m_container) then old(m_container)[KeyOf(s)].entries else [])
                                   + [Entry(s, s.m_sampler_id)]
                && (if KeyOf(s) in old(m_container) then node.reader == old(m_container)[KeyOf(s)].reader
                    else fresh(node.reader))
                && node.reader.m_data_fn && !node.reader.m_quit
    {
      hide ValidContainer;
      if s.m_sampler_id != 0 || s.m_port == 0 {
        return false;
      }
      var key := KeyOf(s);
      var node: Node;
      if key !in m_container {
        var reader := new Reader();
        if !started {
          // The thread is told to quit and joined, and its node is erased again.
          reader.m_quit := true;
          return false;
        }
        node := Node(reader, []);
      } else {
        node := m_container[key];
        if node.reader.m_quit {
          return false;
        }
      }
      assert forall k <- m_container :: allocated(m_container[k].reader);
      GrownStaysValid(m_container, m_id, node.reader, s);
      m_id := m_id + 1;
      s.m_sampler_id := m_id;
      m_container := m_container[key := Node(node.reader, node.entries + [Entry(s, s.m_sampler_id)])];
      node.reader.m_data_fn := true;
      return true;
    }

    static method FindEntry(entries: seq<Entry>, id: nat) returns (i: nat)
      ensures i <= |entries| && (i < |entries| ==> entries[i].id == id)
      ensures i < |entries| <==> exists j :: 0 <= j < |entries| && entries[j].id == id
    {
      i := 0;
      while i < |entries| && entries[i].id != id
        invariant i <= |entries|
        invariant forall j | 0 <= j < i :: entries[j].id != id
      {
        i := i + 1;
      }
    }

    /** Detaches a sampler; the last one of a node takes the reader with it.  A sampler whose entry
        is gone already keeps its id. */
    method Detach(s: Sampler) returns (ok: bool)
      requires Valid() && Consistent(s)
      modifies this`m_container, s`m_sampler_id
      modifies if KeyOf(s) in m_container then {m_container[KeyOf(s)].reader} else {}
      ensures Valid() && Consistent(s)
      ensures ok == (old(s.m_sampler_id) != 0)
      ensures var listed := old(s.m_sampler_id) != 0 && KeyOf(s) in old(m_container)
                && exists j :: 0 <= j < |old(m_container)[KeyOf(s)].entries|
                               && old(m_container)[KeyOf(s)].entries[j].id == old(s.m_sampler_id);
              if !listed then
                && s.m_sampler_id == old(s.m_sampler_id) && m_container == old(m_container)
                && (KeyOf(s) in m_container ==> unchanged(m_container[KeyOf(s)].reader))
              else
                var node := old(m_container)[KeyOf(s)];
                var rest := Filter(node.entries, Others(node.entries, old(s.m_sampler_id)));
                && s.m_sampler_id == 0
                && |rest| == |node.entries| - 1
                && m_container == (if rest == [] then old(m_container) - {KeyOf(s)}
                                   else old(m_container)[KeyOf(s) := Node(node.reader, rest)])
                && (if rest == [] then node.reader.m_quit && !node.reader.m_data_fn else unchanged(node.reader))
    {
      if s.m_sampler_id == 0 {
        return false;
      }
      ok := true;
      var key := KeyOf(s);
      if key in m_container {
        var node := m_container[key];
        var i := FindEntry(node.entries, s.m_sampler_id);
        if i < |node.entries| {
          ghost var keep := Others(node.entries, s.m_sampler_id);
          var rest := node.entries[..i] + node.entries[i + 1..];
          FilterDropOne(node.entries, i, keep);
          ServedStaysValid(m_container, m_id, key, keep);
          assert ValidEntries(key, node.entries, m_id);
          DroppedIsUnlisted(m_container, s, s.m_sampler_id);
          hide ValidContainer, Filter;
          m_container := m_container[key := Node(node.reader, rest)];
          s.m_sampler_id := 0;
          if rest == [] {
            node.reader.m_data_fn := false;
            node.reader.m_quit := true;
            m_container := m_container - {key};
          }
        }
      }
    }
  }

  lemma FilterValid(key: Key, entries: seq<Entry>, keep: set<Entry>, last: nat)
    requires ValidEntries(key, entries, last)
    ensures ValidEntries(key, Filter(entries, keep), last)
  {
    FilterDistinct(entries, keep);
    var rest := Filter(entries, keep);
    forall i | 0 <= i < |rest|
      ensures 0 < rest[i].id <= last && KeyOf(rest[i].sampler) == key
    {
      FilterMember(entries, keep, rest[i]);
    }
  }

  lemma {:induction false} FilterDistinct(entries: seq<Entry>, keep: set<Entry>)
    requires DistinctSamplers(entries) && DistinctIds(entries)
    ensures DistinctSamplers(Filter(entries, keep)) && DistinctIds(Filter(entries, keep))
  {
    if entries != [] {
      var rest := Filter(entries[1..], keep);
      FilterDistinct(entries[1..], keep);
      forall j | 0 <= j < |rest| ensures rest[j].sampler != entries[0].sampler && rest[j].id != entries[0].id {
        FilterMember(entries[1..], keep, rest[j]);
      }
    }
  }
}
