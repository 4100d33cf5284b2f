/** What every step of the protocol keeps. */
module ProtocolInvariants {
  import opened Buffering
  import opened Protocol

  /** The queue account of one sampler: nothing is invented, repeated or reordered, and it is exact
      as long as nothing was dropped. */
  predicate Accounted(x: Sampler) {
    && |x.leftover| + |x.published| == |x.delivered| + |x.list| + x.dropped
    && (x.dropped == 0 ==> x.leftover + x.published == x.delivered + x.list)
    && x.squeezed <= x.dropped
  }

  predicate SamplersOk(samplers: map<nat, Sampler>, last: nat) {
    && (forall c <- samplers :: Accounted(samplers[c]) && samplers[c].id <= last)
    && (forall c, c' | c in samplers && c' in samplers && c != c' && samplers[c].id != 0 ::
          samplers[c].id != samplers[c'].id)
  }

  /** The flags and counters of one reader thread. */
  predicate ReaderOk(x: Reader) {
    CountersOk(x) && FlagsOk(x)
  }

  predicate CountersOk(x: Reader) {
    && x.late <= 1
    && (!x.quit ==> x.late == 0)
    && (x.pc.Export? || x.pc.Call? ==> x.late == 0)
    && x.finals == (if x.pc.FinalSlot? || (x.finals != 0 && (x.pc.Stopping? || x.pc.Done?)) then 1 else 0)
  }

  predicate FlagsOk(x: Reader) {
    && (Finishing(x.pc) ==> x.quit)
    && (Finishing(x.pc) || x.pc.Quitting? ==> !x.connected && !x.reading)
    && (x.pc.Done? ==> x.running.Down?)
  }

  predicate Finishing(pc: Pc) {
    pc.Final? || pc.FinalCall? || pc.FinalSlot? || pc.Stopping? || pc.Done? || pc.Crashed?
  }

  /** Nodes and live threads name each other. */
  predicate NodesOk(nodes: map<Key, Node>, readers: map<nat, Reader>, spawned: nat) {
    && (forall k {:trigger k in nodes} | k in nodes :: nodes[k].reader in readers && readers[nodes[k].reader].key == k)
    && (forall r {:trigger r in readers} | r in readers :: r < spawned && ReaderOk(readers[r]))
    && (forall r {:trigger r in readers} | r in readers && !readers[r].pc.Done? ::
          readers[r].key in nodes && nodes[readers[r].key].reader == r)
  }

  /** Every entry is its sampler's own, under the sampler's key and current id, and stands once. */
  predicate EntriesOk(key: Key, entries: seq<Entry>, samplers: map<nat, Sampler>) {
    && (forall i | 0 <= i < |entries| :: EntryOk(key, entries[i], samplers))
    && (forall i, j | 0 <= i < j < |entries| :: entries[i].sampler != entries[j].sampler)
  }

  predicate EntryOk(key: Key, e: Entry, samplers: map<nat, Sampler>) {
    && e.sampler in samplers
    && samplers[e.sampler].key == key
    && samplers[e.sampler].id == e.id != 0
    && samplers[e.sampler].dropped == samplers[e.sampler].squeezed
  }

  /** A node without samplers belongs to a thread that quits, is about to, or is being started. */
  predicate EmptyOk(node: Node, readers: map<nat, Reader>, holder: Holder) {
    node.entries == [] ==>
      || holder == Starting(if holder.Starting? then holder.client else 0, node.reader)
      || (node.reader in readers && (readers[node.reader].quit || readers[node.reader].pc.Refused?))
  }

  predicate HolderOk(s: State) {
    match s.holder
    case Free => true
    case Starting(c, r) =>
      && c in s.samplers && s.samplers[c].id == 0 && r in s.readers
      && s.samplers[c].key in s.nodes && s.nodes[s.samplers[c].key] == Node(r, [])
    case Joining(key, r) =>
      && r in s.readers && s.readers[r].quit && key in s.nodes && s.nodes[key] == Node(r, [])
  }

  predicate Inv(s: State) {
    && SamplersOk(s.samplers, s.lastId)
    && NodesOk(s.nodes, s.readers, s.spawned)
    && (forall k <- s.nodes :: EntriesOk(k, s.nodes[k].entries, s.samplers))
    && (forall k <- s.nodes :: EmptyOk(s.nodes[k], s.readers, s.holder))
    && HolderOk(s)
  }

  // ----- each step keeps it

  /** A reader keeps its key, never takes quit back, and is done only after stopping. */
  predicate Follows(x: Reader, y: Reader) {
    && y.key == x.key
    && (x.quit || x.pc.Refused? ==> y.quit)
    && (y.pc.Done? <==> x.pc.Stopping? || x.pc.Done?)
  }

  lemma LoopKeepsReader(x: Reader, e: Event)
    requires ReaderOk(x) && InLoop(x.pc)
    ensures ReaderOk(Loop(x, e)) && Follows(x, Loop(x, e))
  {
  }

  lemma EdgeKeepsReader(x: Reader, e: Event)
    requires ReaderOk(x) && !InLoop(x.pc)
    ensures ReaderOk(Edge(x, e)) && Follows(x, Edge(x, e))
  {
  }

  lemma LocalKeepsReader(x: Reader, e: Event)
    requires ReaderOk(x)
    ensures ReaderOk(Local(x, e)) && Follows(x, Local(x, e))
  {
    hide Loop, Edge, ReaderOk, Follows;
    if InLoop(x.pc) {
      LoopKeepsReader(x, e);
    } else {
      EdgeKeepsReader(x, e);
    }
  }

  lemma InitInv(samplers: map<nat, Sampler>)
    requires Unused(samplers)
    ensures Inv(Init(samplers))
  {
  }

  /** Changing one thread's own flags, or one node's list, leaves nodes and threads matched. */
  lemma ReaderUpdateOk(nodes: map<Key, Node>, readers: map<nat, Reader>, spawned: nat, r: nat, x: Reader)
    requires NodesOk(nodes, readers, spawned) && r in readers && ReaderOk(x) && x.key == readers[r].key
    requires readers[r].pc.Done? ==> x.pc.Done?
    ensures NodesOk(nodes, readers[r := x], spawned)
  {
  }

  lemma NodeAndReaderOk(nodes: map<Key, Node>, readers: map<nat, Reader>, spawned: nat, holder: Holder,
                        key: Key, entries: seq<Entry>, x: Reader, nodes': map<Key, Node>, readers': map<nat, Reader>)
    requires NodesOk(nodes, readers, spawned) && (forall k <- nodes :: EmptyOk(nodes[k], readers, holder))
    requires key in nodes && nodes[key].reader in readers
    requires ReaderOk(x) && x.key == key && (readers[nodes[key].reader].pc.Done? ==> x.pc.Done?)
    requires entries == [] ==> x.quit || x.pc.Refused?
    requires nodes' == nodes[key := Node(nodes[key].reader, entries)] && readers' == readers[nodes[key].reader := x]
    ensures NodesOk(nodes', readers', spawned) && forall k <- nodes' :: EmptyOk(nodes'[k], readers', holder)
  {
    hide ReaderOk;
  }

  lemma EmptyStays(s: State, r: nat, x: Reader)
    requires r in s.readers && (s.readers[r].quit || s.readers[r].pc.Refused? ==> x.quit)
    requires forall k <- s.nodes :: EmptyOk(s.nodes[k], s.readers, s.holder)
    ensures forall k <- s.nodes :: EmptyOk(s.nodes[k], s.readers[r := x], s.holder)
  {
  }

  lemma LocalStepInv(s: State, r: nat, e: Event)
    requires Inv(s) && r in s.readers && !s.readers[r].pc.Slot? && !s.readers[r].pc.FinalSlot?
    ensures Inv(ThreadStep(s, r, e))
  {
    hide EntriesOk, SamplersOk, EmptyOk;
    LocalKeepsReader(s.readers[r], e);
    ReaderUpdateOk(s.nodes, s.readers, s.spawned, r, Local(s.readers[r], e));
    EmptyStays(s, r, Local(s.readers[r], e));
    hide Local, ReaderOk, NodesOk;
  }

  // ----- set_data_slot

  lemma PublishKeepsAccount(x: Sampler, data: Batch)
    requires Accounted(x)
    ensures Accounted(Publish(x, data))
    ensures x.dropped == x.squeezed && Accepts(x.list, x.max) ==> Publish(x, data).dropped == Publish(x, data).squeezed
  {
    var y := Publish(x, data);
    if y.dropped == 0 {
      assert y.list == x.list + [data];
      assert x.delivered + y.list == (x.delivered + x.list) + [data];
      assert x.leftover + y.published == (x.leftover + x.published) + [data];
    }
  }

  lemma PublishedOk(entries: seq<Entry>, samplers: map<nat, Sampler>, data: Batch, last: nat)
    requires SamplersOk(samplers, last)
    ensures SamplersOk(Published(entries, samplers, data), last)
  {
    forall c | c in samplers
      ensures Accounted(Published(entries, samplers, data)[c])
    {
      PublishKeepsAccount(samplers[c], data);
    }
  }

  /** The entries that stay in the node are exactly those whose queue took the batch. */
  lemma ServedEntriesOk(key: Key, entries: seq<Entry>, samplers: map<nat, Sampler>, data: Batch)
    requires EntriesOk(key, entries, samplers) && forall c <- samplers :: Accounted(samplers[c])
    ensures EntriesOk(key, Filter(entries, Accepting(entries, samplers)), Published(entries, samplers, data))
  {
    var keep := Accepting(entries, samplers);
    var rest := Filter(entries, keep);
    FilterKeepsDistinct(entries, keep);
    forall i | 0 <= i < |rest| ensures EntryOk(key, rest[i], Published(entries, samplers, data)) {
      FilterMember(entries, keep, rest[i]);
      var j :| 0 <= j < |entries| && entries[j] == rest[i]
        && Accepts(samplers[entries[j].sampler].list, samplers[entries[j].sampler].max);
      PublishKeepsAccount(samplers[rest[i].sampler], data);
    }
  }

  lemma {:induction false} FilterKeepsDistinct(entries: seq<Entry>, keep: set<Entry>)
    requires forall i, j | 0 <= i < j < |entries| :: entries[i].sampler != entries[j].sampler
    ensures var rest := Filter(entries, keep);
            forall i, j | 0 <= i < j < |rest| :: rest[i].sampler != rest[j].sampler
  {
    if entries != [] {
      var rest := Filter(entries[1..], keep);
      FilterKeepsDistinct(entries[1..], keep);
      forall j | 0 <= j < |rest| ensures rest[j].sampler != entries[0].sampler {
        FilterMember(entries[1..], keep, rest[j]);
      }
    }
  }

  /** Nodes under other keys are not touched: their samplers have another key. */
  lemma OthersUntouched(key: Key, entries: seq<Entry>, key': Key, entries': seq<Entry>, samplers: map<nat, Sampler>,
          data: Batch)
    requires EntriesOk(key, entries, samplers) && EntriesOk(key', entries', samplers) && key != key'
    ensures EntriesOk(key', entries', Published(entries, samplers, data))
  {
  }

  lemma ServeInv(s: State, r: nat, data: Batch, x: Reader)
    requires Inv(s) && s.holder.Free? && r in s.readers && !s.readers[r].pc.Done?
    requires ReaderOk(x) && x.key == s.readers[r].key && !x.pc.Done? && x.quit == s.readers[r].quit
    requires !s.readers[r].pc.Refused?
    requires Serve(s, x.key, data).nodes[x.key].entries == [] ==> x.quit || x.pc.Refused?
    ensures Inv(SetReader(Serve(s, x.key, data), r, x))
  {
    ServedOk(s, x.key, data);
    assert s.nodes[x.key].reader == r;
    var s' := Serve(s, x.key, data);
    NodeAndReaderOk(s.nodes, s.readers, s.spawned, s.holder, x.key, s'.nodes[x.key].entries, x, s'.nodes,
                    s.readers[r := x]);
    hide ReaderOk, SamplersOk, EntriesOk, NodesOk, EmptyOk, Filter, Published;
  }

  lemma ServedOk(s: State, key: Key, data: Batch)
    requires SamplersOk(s.samplers, s.lastId) && forall k <- s.nodes :: EntriesOk(k, s.nodes[k].entries, s.samplers)
    requires key in s.nodes
    ensures var s' := Serve(s, key, data);
            && SamplersOk(s'.samplers, s'.lastId)
            && forall k <- s'.nodes :: EntriesOk(k, s'.nodes[k].entries, s'.samplers)
  {
    var node := s.nodes[key];
    var s' := Serve(s, key, data);
    PublishedOk(node.entries, s.samplers, data, s.lastId);
    ServedEntriesOk(key, node.entries, s.samplers, data);
    hide SamplersOk, EntriesOk, Filter, Published;
    forall k | k in s'.nodes ensures EntriesOk(k, s'.nodes[k].entries, s'.samplers) {
      if k != key {
        OthersUntouched(key, node.entries, k, s.nodes[k].entries, s.samplers, data);
      }
    }
  }

  lemma SlotStepInv(s: State, r: nat, e: Event)
    requires Inv(s) && r in s.readers && (s.readers[r].pc.Slot? || s.readers[r].pc.FinalSlot?)
    ensures Inv(ThreadStep(s, r, e))
  {
    if s.holder.Free? {
      var x := s.readers[r];
      if x.pc.Slot? {
        var ok := SetDataSlot(s, x.key, false, x.batch).1;
        ServeInv(s, r, x.batch, x.(pc := if ok then Reading else Refused));
      } else {
        ServeInv(s, r, map[], x.(pc := Stopping));
      }
    }
  }

  // ----- clients

  lemma EnlistInv(s: State, c: nat)
    requires Inv(s) && (s.holder.Free? || (s.holder.Starting? && s.holder.client == c))
    requires c in s.samplers && s.samplers[c].id == 0 && s.samplers[c].key in s.nodes
    ensures Inv(Enlist(s.(holder := Free), c))
  {
    hide EntriesOk, SamplersOk, NodesOk, EmptyOk, Enlist;
    EnlistedOk(s.(holder := Free), c);
    EnlistedNodesOk(s, c);
    EnlistFrees(s, c);
  }

  lemma EnlistFrees(s: State, c: nat)
    requires c in s.samplers && s.samplers[c].key in s.nodes
    ensures Enlist(s.(holder := Free), c).holder.Free?
  {
  }

  lemma EnlistedNodesOk(s: State, c: nat)
    requires NodesOk(s.nodes, s.readers, s.spawned) && (forall k <- s.nodes :: EmptyOk(s.nodes[k], s.readers, s.holder))
    requires s.holder.Free? || (s.holder.Starting? && s.holder.client == c && HolderOk(s))
    requires c in s.samplers && s.samplers[c].key in s.nodes
    ensures var s' := Enlist(s.(holder := Free), c);
            && NodesOk(s'.nodes, s'.readers, s'.spawned)
            && forall k <- s'.nodes :: EmptyOk(s'.nodes[k], s'.readers, s'.holder)
  {
    var node := s.nodes[s.samplers[c].key];
    assert ReaderOk(s.readers[node.reader].(fn := true));
    hide ReaderOk;
  }

  lemma EnlistedOk(s: State, c: nat)
    requires SamplersOk(s.samplers, s.lastId) && forall k <- s.nodes :: EntriesOk(k, s.nodes[k].entries, s.samplers)
    requires c in s.samplers && s.samplers[c].id == 0 && s.samplers[c].key in s.nodes
    ensures var s' := Enlist(s, c);
            && SamplersOk(s'.samplers, s'.lastId)
            && forall k <- s'.nodes :: EntriesOk(k, s'.nodes[k].entries, s'.samplers)
  {
    hide SamplersOk, EntriesOk;
    var x := s.samplers[c];
    var y := x.(id := s.lastId + 1, leftover := x.list, published := [], delivered := [], dropped := 0, squeezed := 0);
    var s' := Enlist(s, c);
    assert s'.samplers == s.samplers[c := y];
    FreshAccount(s.samplers, s.lastId, c, y);
    forall k | k in s'.nodes ensures EntriesOk(k, s'.nodes[k].entries, s'.samplers) {
      GrownEntries(k, s.nodes[k].entries, s.samplers, c, y);
      assert s'.nodes[k].entries == s.nodes[k].entries + (if k == x.key then [Entry(c, y.id)] else []);
    }
  }

  lemma FreshAccount(samplers: map<nat, Sampler>, last: nat, c: nat, y: Sampler)
    requires SamplersOk(samplers, last) && c in samplers
    requires y.id == last + 1 && y.leftover == y.list && y.published == y.delivered == []
             && y.dropped == y.squeezed == 0
    ensures SamplersOk(samplers[c := y], last + 1)
  {
    assert y.list + [] == y.list && [] + y.list == y.list;
  }

  lemma GrownEntries(key: Key, entries: seq<Entry>, samplers: map<nat, Sampler>, c: nat, y: Sampler)
    requires EntriesOk(key, entries, samplers) && c in samplers && samplers[c].id == 0
    requires y.key == samplers[c].key && y.id != 0 && y.dropped == y.squeezed
    ensures EntriesOk(key, entries + (if key == y.key then [Entry(c, y.id)] else []), samplers[c := y])
  {
    assert forall i | 0 <= i < |entries| :: EntryOk(key, entries[i], samplers) && entries[i].sampler != c;
  }

  lemma SpawnInv(s: State, c: nat)
    requires Inv(s) && s.holder.Free? && c in s.samplers && s.samplers[c].id == 0 && s.samplers[c].key !in s.nodes
    ensures Inv(Spawn(s, c))
  {
    hide EntryOk, SamplersOk;
  }

  lemma AttachInv(s: State, c: nat)
    requires Inv(s)
    ensures Inv(AttachStep(s, c))
  {
    if c in s.samplers && s.samplers[c].id == 0 && s.samplers[c].key.port != 0 && s.holder.Free? {
      var key := s.samplers[c].key;
      hide Spawn, Enlist, EntriesOk, SamplersOk, NodesOk, EmptyOk;
      if key !in s.nodes {
        SpawnInv(s, c);
      } else if !Quits(s, s.nodes[key].reader) {
        EnlistInv(s, c);
      }
    }
  }

  lemma AwaitInv(s: State)
    requires Inv(s)
    ensures Inv(AwaitStep(s))
  {
    if s.holder.Starting? {
      var c, r := s.holder.client, s.holder.reader;
      if s.readers[r].running.Up? {
        EnlistInv(s, c);
      }
    }
  }

  lemma JoinedInv(s: State)
    requires Inv(s)
    ensures Inv(JoinedStep(s))
  {
    hide EntriesOk, SamplersOk, ReaderOk;
  }

  lemma DetachInv(s: State, c: nat)
    requires Inv(s)
    ensures Inv(DetachStep(s, c))
  {
    hide EntriesOk, SamplersOk, NodesOk, EmptyOk, HolderOk, DetachStep;
    if DetachStep(s, c) != s {
      DetachEntriesOk(s, c);
      DetachNodesOk(s, c);
      DetachHolderOk(s, c);
    }
  }

  lemma DetachHolderOk(s: State, c: nat)
    requires Inv(s) && DetachStep(s, c) != s
    ensures HolderOk(DetachStep(s, c))
  {
    hide EntriesOk, SamplersOk, EmptyOk, Filter, Others, ReaderOk;
  }

  lemma DetachNodesOk(s: State, c: nat)
    requires Inv(s) && DetachStep(s, c) != s
    ensures var s' := DetachStep(s, c);
            && NodesOk(s'.nodes, s'.readers, s'.spawned)
            && (forall k <- s'.nodes :: EmptyOk(s'.nodes[k], s'.readers, s'.holder))
  {
    var s' := DetachStep(s, c);
    var key := s.samplers[c].key;
    var r := s.nodes[key].reader;
    assert ReaderOk(s'.readers[r]);
    NodeAndReaderOk(s.nodes, s.readers, s.spawned, s.holder, key, s'.nodes[key].entries, s'.readers[r], s'.nodes,
                    s'.readers);
    hide EntriesOk, SamplersOk, Filter, NodesOk, ReaderOk;
  }

  lemma DetachEntriesOk(s: State, c: nat)
    requires Inv(s) && DetachStep(s, c) != s
    ensures var s' := DetachStep(s, c);
            && SamplersOk(s'.samplers, s'.lastId)
            && forall k <- s'.nodes :: EntriesOk(k, s'.nodes[k].entries, s'.samplers)
  {
    hide NodesOk, EmptyOk, Filter, Others, EntryOk;
    var s' := DetachStep(s, c);
    var x := s.samplers[c];
    assert SamplersOk(s'.samplers, s'.lastId);
    hide SamplersOk, EntriesOk;
    forall k | k in s'.nodes ensures EntriesOk(k, s'.nodes[k].entries, s'.samplers) {
      if k == x.key {
        DetachedEntries(k, s.nodes[k].entries, s.samplers, c);
      } else {
        OtherKeyEntries(k, s.nodes[k].entries, s.samplers, c);
      }
    }
  }

  lemma OtherKeyEntries(key: Key, entries: seq<Entry>, samplers: map<nat, Sampler>, c: nat)
    requires EntriesOk(key, entries, samplers) && c in samplers && samplers[c].key != key
    ensures EntriesOk(key, entries, samplers[c := samplers[c].(id := 0)])
  {
  }

  lemma DetachedEntries(key: Key, entries: seq<Entry>, samplers: map<nat, Sampler>, c: nat)
    requires EntriesOk(key, entries, samplers) && c in samplers
    ensures EntriesOk(key, Filter(entries, Others(entries, samplers[c].id)), samplers[c := samplers[c].(id := 0)])
  {
    var keep := Others(entries, samplers[c].id);
    var rest := Filter(entries, keep);
    FilterKeepsDistinct(entries, keep);
    forall i | 0 <= i < |rest| ensures EntryOk(key, rest[i], samplers[c := samplers[c].(id := 0)]) {
      FilterMember(entries, keep, rest[i]);
      assert EntryOk(key, rest[i], samplers);
    }
  }

  lemma TakeInv(s: State, c: nat)
    requires Inv(s)
    ensures Inv(TakeStep(s, c))
  {
    hide NodesOk, EmptyOk;
  }

  lemma MaximumInv(s: State, c: nat, value: nat)
    requires Inv(s)
    ensures Inv(MaximumStep(s, c, value))
  {
    hide NodesOk, EmptyOk;
  }

  // ----- every run

  lemma NextInv(s: State, step: Step)
    requires Inv(s)
    ensures Inv(Next(s, step))
  {
    hide Inv, ThreadStep, AttachStep, AwaitStep, JoinedStep, DetachStep, TakeStep, MaximumStep;
    match step {
      case Thread(r, e) => ThreadInv(s, r, e);
      case Attach(c) => AttachInv(s, c);
      case Await => AwaitInv(s);
      case Joined => JoinedInv(s);
      case Detach(c) => DetachInv(s, c);
      case Take(c) => TakeInv(s, c);
      case Maximum(c, value) => MaximumInv(s, c, value);
    }
  }

  lemma ThreadInv(s: State, r: nat, e: Event)
    requires Inv(s)
    ensures Inv(ThreadStep(s, r, e))
  {
    if r in s.readers {
      hide Inv, ThreadStep;
      if s.readers[r].pc.Slot? || s.readers[r].pc.FinalSlot? {
        SlotStepInv(s, r, e);
      } else {
        LocalStepInv(s, r, e);
      }
    }
  }

  lemma {:induction false} RunKeepsInv(s: State, steps: seq<Step>)
    requires Inv(s)
    ensures Inv(Run(s, steps))
    decreases |steps|
  {
    hide Inv, Next;
    if steps != [] {
      RunKeepsInv(s, steps[..|steps| - 1]);
      NextInv(Run(s, steps[..|steps| - 1]), steps[|steps| - 1]);
    }
  }

  /** The invariant holds in every state that any interleaving can reach. */
  lemma Reachable(samplers: map<nat, Sampler>, steps: seq<Step>)
    requires Unused(samplers)
    ensures Inv(Run(Init(samplers), steps))
  {
    InitInv(samplers);
    RunKeepsInv(Init(samplers), steps);
  }

  // ----- runs in pieces

  lemma RunStep(s: State, steps: seq<Step>, step: Step)
    ensures Run(s, steps + [step]) == Next(Run(s, steps), step)
  {
    assert (steps + [step])[..|steps|] == steps;
  }

  lemma RunOne(s: State, step: Step)
    ensures Run(s, [step]) == Next(s, step)
  {
    hide Next;
    RunStep(s, [], step);
  }

  lemma {:induction false} RunConcat(s: State, first: seq<Step>, second: seq<Step>)
    ensures Run(s, first + second) == Run(Run(s, first), second)
    decreases |second|
  {
    hide Next;
    if second == [] {
      assert first + second == first;
    } else {
      var init, last := second[..|second| - 1], second[|second| - 1];
      assert first + second == (first + init) + [last];
      RunStep(s, first + init, last);
      RunConcat(s, first, init);
    }
  }

  lemma RunTwo(s: State, a: Step, b: Step)
    ensures Run(s, [a, b]) == Next(Next(s, a), b)
  {
    hide Next;
    assert [a, b] == [a] + [b] && [a] == [] + [a];
    RunStep(s, [], a);
    RunStep(s, [a], b);
  }

  lemma RunFour(s: State, a: Step, b: Step, c: Step, d: Step)
    ensures Run(s, [a, b, c, d]) == Next(Next(Next(Next(s, a), b), c), d)
  {
    hide Next, Run;
    assert [a, b, c, d] == [a, b] + [c, d];
    RunConcat(s, [a, b], [c, d]);
    RunTwo(s, a, b);
    RunTwo(Run(s, [a, b]), c, d);
  }
}
