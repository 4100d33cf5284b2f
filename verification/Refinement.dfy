/** The manager's critical sections and the steps of the protocol are the same sections: a manager
    whose objects stand for a protocol state is taken by each section to one that stands for the
    state after the step. */
module ManagerRefinement {
  import opened Buffering
  import Objects = SamplerSide
  import Managed = ManagerSide
  import opened Protocol
  import opened ProtocolInvariants
  import opened ProtocolJoins

  /** Which object a number of the protocol names. */
  datatype Names = Names(samplers: map<nat, Objects.Sampler>, readers: map<nat, Managed.Reader>)

  ghost predicate Distinct(names: Names) {
    && (forall c, c' | c in names.samplers && c' in names.samplers && c != c' ::
          names.samplers[c] != names.samplers[c'])
    && (forall r, r' | r in names.readers && r' in names.readers && r != r' :: names.readers[r] != names.readers[r'])
  }

  ghost function SamplerObjects(names: Names): set<Objects.Sampler> {
    set c | c in names.samplers :: names.samplers[c]
  }

  ghost function ReaderObjects(names: Names): set<Managed.Reader> {
    set r | r in names.readers :: names.readers[r]
  }

  predicate Known(names: Names, entries: seq<Entry>) {
    forall i | 0 <= i < |entries| :: entries[i].sampler in names.samplers
  }

  function Named(names: Names, entries: seq<Entry>): (r: seq<Managed.Entry>)
    requires Known(names, entries)
    ensures |r| == |entries|
    ensures forall i | 0 <= i < |r| :: r[i] == Managed.Entry(names.samplers[entries[i].sampler], entries[i].id)
  {
    seq(|entries|, i requires 0 <= i < |entries| => Managed.Entry(names.samplers[entries[i].sampler], entries[i].id))
  }

  /** What the protocol knows of an object. */
  datatype View = View(key: Key, id: nat, max: nat, list: seq<Batch>)
  datatype Flags = Flags(quit: bool, fn: bool)

  function ViewOf(o: Objects.Sampler): View
    reads o
  {
    View(Managed.KeyOf(o), o.m_sampler_id, o.m_list_max, o.m_list)
  }

  ghost function SamplerViews(names: Names): map<nat, View>
    reads SamplerObjects(names)
  {
    map c | c in names.samplers :: ViewOf(names.samplers[c])
  }

  function FlagsOf(o: Managed.Reader): Flags
    reads o
  {
    Flags(o.m_quit, o.m_data_fn)
  }

  ghost function ReaderViews(names: Names): map<nat, Flags>
    reads ReaderObjects(names)
  {
    map r | r in names.readers :: FlagsOf(names.readers[r])
  }

  predicate SamplersStand(samplers: map<nat, Sampler>, views: map<nat, View>) {
    && samplers.Keys == views.Keys
    && forall c | c in samplers :: views[c] == View(samplers[c].key, samplers[c].id, samplers[c].max, samplers[c].list)
  }

  /** A thread that is in no node any more needs no object. */
  predicate ReadersStand(readers: map<nat, Reader>, views: map<nat, Flags>) {
    forall r | r in views :: r in readers && views[r] == Flags(readers[r].quit, readers[r].fn)
  }

  predicate NodeStands(names: Names, node: Node, o: Managed.Node) {
    && Known(names, node.entries) && o.entries == Named(names, node.entries)
    && node.reader in names.readers && o.reader == names.readers[node.reader]
  }

  predicate NodesStand(names: Names, nodes: map<Key, Node>, container: map<Key, Managed.Node>) {
    nodes.Keys == container.Keys && forall k | k in nodes :: NodeStands(names, nodes[k], container[k])
  }

  /** The manager and its objects stand for a state of the protocol. */
  ghost predicate Represents(m: Managed.Manager, s: State, names: Names)
    reads m, SamplerObjects(names), ReaderObjects(names)
  {
    && Distinct(names) && s.lastId == m.m_id && NodesStand(names, s.nodes, m.m_container)
    && SamplersStand(s.samplers, SamplerViews(names)) && ReadersStand(s.readers, ReaderViews(names))
  }

  // ----- what the invariant gives the manager

  lemma EntriesAreValid(s: State, names: Names, key: Key)
    requires Inv(s) && Distinct(names) && s.samplers.Keys == names.samplers.Keys && key in s.nodes
    requires Known(names, s.nodes[key].entries)
    requires forall c | c in s.samplers :: s.samplers[c].key == Managed.KeyOf(names.samplers[c])
    ensures Managed.ValidEntries(key, Named(names, s.nodes[key].entries), s.lastId)
  {
    var entries := s.nodes[key].entries;
    assert EntriesOk(key, entries, s.samplers);
    assert forall i | 0 <= i < |entries| :: EntryOk(key, entries[i], s.samplers);
    hide NodesOk, EmptyOk, EntriesOk;
  }

  lemma IdsAreConsistent(m: Managed.Manager, s: State, names: Names, c: nat)
    requires Inv(s) && Represents(m, s, names) && c in names.samplers
    ensures m.Consistent(names.samplers[c])
  {
    assert ViewOf(names.samplers[c]) == SamplerViews(names)[c];
    var key := s.samplers[c].key;
    if key in s.nodes {
      var entries := s.nodes[key].entries;
      assert EntriesOk(key, entries, s.samplers);
      assert forall i | 0 <= i < |entries| :: EntryOk(key, entries[i], s.samplers);
    }
    hide NodesOk, EmptyOk, EntriesOk;
  }

  /** A manager that stands for a state with the invariant is well formed, and each sampler's id names
      its own entry. */
  lemma RepresentsValid(m: Managed.Manager, s: State, names: Names)
    requires Inv(s) && Represents(m, s, names)
    ensures m.Valid()
    ensures forall c | c in names.samplers :: m.Consistent(names.samplers[c])
  {
    forall c | c in s.samplers
      ensures s.samplers[c].key == Managed.KeyOf(names.samplers[c])
    {
      assert ViewOf(names.samplers[c]) == SamplerViews(names)[c];
    }
    forall k | k in s.nodes
      ensures Managed.ValidEntries(k, m.m_container[k].entries, m.m_id)
    {
      EntriesAreValid(s, names, k);
    }
    forall c | c in names.samplers
      ensures m.Consistent(names.samplers[c])
    {
      IdsAreConsistent(m, s, names, c);
    }
    hide SamplersOk, EmptyOk, EntriesOk;
  }

  // ----- filtering

  lemma {:induction false} FilterNamed(names: Names, entries: seq<Entry>, keep: set<Entry>, keep': set<Managed.Entry>)
    requires Known(names, entries)
    requires forall i | 0 <= i < |entries| :: entries[i] in keep <==> Named(names, entries)[i] in keep'
    ensures Known(names, Filter(entries, keep))
    ensures Filter(Named(names, entries), keep') == Named(names, Filter(entries, keep))
  {
    if entries == [] {
      assert Named(names, entries) == [];
    } else {
      var rest := entries[1..];
      assert Named(names, entries)[1..] == Named(names, rest);
      forall i | 0 <= i < |rest| ensures rest[i] in keep <==> Named(names, rest)[i] in keep' {
        assert Named(names, entries)[i + 1] == Named(names, rest)[i];
      }
      FilterNamed(names, rest, keep, keep');
      var first := if entries[0] in keep then [entries[0]] else [];
      assert Known(names, first + Filter(rest, keep));
      assert Named(names, first + Filter(rest, keep)) == Named(names, first) + Named(names, Filter(rest, keep));
      assert Named(names, first) == if Named(names, entries)[0] in keep' then [Named(names, entries)[0]] else [];
    }
  }

  lemma AcceptingNamed(m: Managed.Manager, s: State, names: Names, key: Key)
    requires Represents(m, s, names) && key in s.nodes
    ensures var entries := s.nodes[key].entries;
            && Known(names, entries)
            && forall i | 0 <= i < |entries| ::
                 entries[i] in Accepting(entries, s.samplers)
                 <==> Named(names, entries)[i] in Managed.Accepting(Named(names, entries))
  {
  }

  lemma ListedObject(names: Names, entries: seq<Entry>, c: nat)
    requires Distinct(names) && Known(names, entries) && c in names.samplers
    ensures names.samplers[c] in Managed.Samplers(Named(names, entries)) <==> Lists(entries, c)
  {
    var objects := Named(names, entries);
    if Lists(entries, c) {
      var i :| 0 <= i < |entries| && entries[i].sampler == c;
      assert objects[i].sampler == names.samplers[c];
    }
  }

  lemma NodesServed(names: Names, s: State, container: map<Key, Managed.Node>, key: Key, data: Batch,
                    keep: set<Managed.Entry>)
    requires key in s.nodes && NodesStand(names, s.nodes, container)
    requires var entries := s.nodes[key].entries;
             && Known(names, entries)
             && forall i | 0 <= i < |entries| ::
                  entries[i] in Accepting(entries, s.samplers) <==> Named(names, entries)[i] in keep
    ensures var nodes, container' := Serve(s, key, data).nodes, container[key := Managed.Served(container[key], keep)];
            && NodesStand(names, nodes, container')
            && (nodes[key].entries == [] <==> container'[key].entries == [])
  {
    FilterNamed(names, s.nodes[key].entries, Accepting(s.nodes[key].entries, s.samplers), keep);
    hide Filter, Accepting;
  }

  /** What serving does to the samplers, in terms of their views. */
  function ServedViews(views: map<nat, View>, entries: seq<Entry>, data: Batch): map<nat, View> {
    map c | c in views ::
      if Lists(entries, c) then views[c].(list := Kept(views[c].list, views[c].max, data)) else views[c]
  }

  lemma SamplersServed(s: State, key: Key, data: Batch, views: map<nat, View>)
    requires key in s.nodes && SamplersStand(s.samplers, views)
    ensures SamplersStand(Serve(s, key, data).samplers, ServedViews(views, s.nodes[key].entries, data))
  {
    hide Kept, Discarded, Filter, Lists;
  }

  lemma NodeIs(names: Names, nodes: map<Key, Node>, container: map<Key, Managed.Node>, key: Key)
    requires NodesStand(names, nodes, container)
    ensures key in nodes <==> key in container
    ensures key in nodes ==> NodeStands(names, nodes[key], container[key])
  {
  }

  lemma ViewsAre(names: Names, views: map<nat, View>)
    requires views.Keys == names.samplers.Keys
    requires forall c | c in names.samplers :: ViewOf(names.samplers[c]) == views[c]
    ensures SamplerViews(names) == views
  {
  }

  lemma FlagsAre(names: Names, flags: map<nat, Flags>)
    requires flags.Keys == names.readers.Keys && forall r | r in names.readers :: FlagsOf(names.readers[r]) == flags[r]
    ensures ReaderViews(names) == flags
  {
  }

  lemma QuitStands(s: State, r: nat, flags: map<nat, Flags>)
    requires ReadersStand(s.readers, flags) && r in flags
    ensures Quits(s, r) <==> flags[r].quit
  {
  }

  /** Serving a node, in terms of the views of all objects. */
  method ServeObjects(m: Managed.Manager, key: Key, empty: bool, data: Batch, ghost entries: seq<Entry>,
                      ghost names: Names)
    returns (result: bool)
    requires m.Valid() && Distinct(names) && key in m.m_container
    requires Known(names, entries) && m.m_container[key].entries == Named(names, entries)
    modifies m`m_container, SamplerObjects(names)`m_list
    ensures var node, batch := old(m.m_container[key]), if empty then map[] else data;
            if empty && !node.reader.m_quit then
              !result && m.m_container == old(m.m_container) && SamplerViews(names) == old(SamplerViews(names))
            else
              && m.m_container
                 == old(m.m_container[key := Managed.Served(m.m_container[key],
                                                            Managed.Accepting(m.m_container[key].entries))])
              && SamplerViews(names) == ServedViews(old(SamplerViews(names)), entries, batch)
              && (result <==> m.m_container[key].entries != [])
  {
    hide Filter, Kept, Accepts, Managed.ValidContainer, Lists, Distinct;
    ghost var views := SamplerViews(names);
    assert Managed.Samplers(m.m_container[key].entries) <= SamplerObjects(names);
    ghost var served := !empty || m.m_container[key].reader.m_quit;
    result := m.SetDataSlot(key, empty, data);
    ghost var views' := if served then ServedViews(views, entries, if empty then map[] else data) else views;
    forall c | c in names.samplers ensures ViewOf(names.samplers[c]) == views'[c] {
      ListedObject(names, entries, c);
      if Lists(entries, c) {
        ListsAt(entries, c);
        var i :| 0 <= i < |entries| && entries[i].sampler == c;
        assert Named(names, entries)[i].sampler == names.samplers[c];
      }
    }
    ViewsAre(names, views');
  }

  lemma ListsAt(entries: seq<Entry>, c: nat)
    requires Lists(entries, c)
    ensures exists i :: 0 <= i < |entries| && entries[i].sampler == c
  {
  }

  /** set_data_slot and the protocol's step serve the same samplers and drop the same ones. */
  method ServeNode(m: Managed.Manager, key: Key, empty: bool, data: Batch, ghost s: State, ghost names: Names)
    returns (result: bool)
    requires Inv(s) && Represents(m, s, names)
    modifies m`m_container, SamplerObjects(names)`m_list
    ensures Represents(m, SetDataSlot(s, key, empty, data).0, names)
    ensures result == SetDataSlot(s, key, empty, data).1
  {
    hide Inv, Filter, Kept, Accepts, Managed.ValidContainer, SamplersStand, ReadersStand, NodesStand, Lists, Distinct;
    RepresentsValid(m, s, names);
    NodeIs(names, s.nodes, m.m_container, key);
    ghost var views, flags := SamplerViews(names), ReaderViews(names);
    if key !in m.m_container {
      result := m.SetDataSlot(key, empty, data);
      assert SamplerViews(names) == views;
    } else {
      ghost var batch := if empty then map[] else data;
      ghost var entries := s.nodes[key].entries;
      QuitStands(s, s.nodes[key].reader, flags);
      AcceptingNamed(m, s, names, key);
      NodesServed(names, s, m.m_container, key, batch, Managed.Accepting(m.m_container[key].entries));
      SamplersServed(s, key, batch, views);
      result := ServeObjects(m, key, empty, data, entries, names);
    }
    assert ReaderViews(names) == flags;
  }

  /** The thread that called it moves on; its object does not show where it stands. */
  lemma ThreadMoves(s: State, r: nat, e: Event, flags: map<nat, Flags>)
    requires r in s.readers && s.holder.Free? && (s.readers[r].pc.Slot? || s.readers[r].pc.FinalSlot?)
    requires ReadersStand(s.readers, flags)
    ensures var x := s.readers[r];
            var s0 := SetDataSlot(s, x.key, x.pc.FinalSlot?, if x.pc.Slot? then x.batch else map[]).0;
            var s' := Next(s, Thread(r, e));
            && s'.lastId == s0.lastId && s'.nodes == s0.nodes && s'.samplers == s0.samplers
            && ReadersStand(s'.readers, flags)
  {
    hide Filter, Published, Accepting;
  }

  lemma ThreadGoesOn(s: State, r: nat)
    requires r in s.readers && s.holder.Free? && s.readers[r].pc.Slot?
    ensures var s' := Next(s, Thread(r, Nothing));
            && r in s'.readers
            && s'.readers[r].pc == if SetDataSlot(s, s.readers[r].key, false, s.readers[r].batch).1 then Reading
                                   else Refused
  {
    hide SetDataSlot;
  }

  /** A thread that stands at set_data_slot makes the protocol's step, and goes on by its result. */
  method ServeThread(m: Managed.Manager, key: Key, empty: bool, data: Batch, ghost r: nat, ghost s: State,
                     ghost names: Names)
    returns (result: bool)
    requires Inv(s) && Represents(m, s, names) && s.holder.Free? && r in s.readers && s.readers[r].key == key
    requires if empty then s.readers[r].pc.FinalSlot? && data == map[]
             else s.readers[r].pc.Slot? && data == s.readers[r].batch
    modifies m`m_container, SamplerObjects(names)`m_list
    ensures Represents(m, Next(s, Thread(r, Nothing)), names) && Inv(Next(s, Thread(r, Nothing)))
    ensures !empty ==> Next(s, Thread(r, Nothing)).readers[r].pc == if result then Reading else Refused
  {
    hide Inv, Next, SetDataSlot, SamplersStand, ReadersStand, NodesStand, Distinct;
    ghost var flags := ReaderViews(names);
    ThreadMoves(s, r, Nothing, flags);
    NextInv(s, Thread(r, Nothing));
    result := ServeNode(m, key, empty, data, s, names);
    if !empty {
      ThreadGoesOn(s, r);
    }
    assert ReaderViews(names) == flags;
  }

  // ----- attaching

  lemma SamplersEnlisted(s: State, c: nat, views: map<nat, View>)
    requires SamplersStand(s.samplers, views) && c in s.samplers && s.samplers[c].key in s.nodes
    ensures c in views && SamplersStand(Enlist(s, c).samplers, views[c := views[c].(id := s.lastId + 1)])
  {
  }

  lemma ReadersEnlisted(s: State, c: nat, flags: map<nat, Flags>)
    requires ReadersStand(s.readers, flags) && c in s.samplers && s.samplers[c].key in s.nodes
    requires s.nodes[s.samplers[c].key].reader in flags
    ensures var r := s.nodes[s.samplers[c].key].reader;
            ReadersStand(Enlist(s, c).readers, flags[r := flags[r].(fn := true)])
  {
  }

  lemma NodesEnlisted(names: Names, s: State, c: nat, container: map<Key, Managed.Node>)
    requires c in s.samplers && c in names.samplers && s.samplers[c].key in s.nodes
             && NodesStand(names, s.nodes, container)
    ensures var key := s.samplers[c].key;
            key in container
            && NodesStand(names, Enlist(s, c).nodes,
                          container[key := Managed.Node(container[key].reader,
                                                        container[key].entries
                                                          + [Managed.Entry(names.samplers[c], s.lastId + 1)])])
  {
    var key := s.samplers[c].key;
    var entries, entry := s.nodes[key].entries, Entry(c, s.lastId + 1);
    assert Known(names, entries + [entry]);
    assert Named(names, entries + [entry]) == Named(names, entries) + [Managed.Entry(names.samplers[c], s.lastId + 1)];
  }

  lemma ReaderOfNode(s: State, key: Key)
    requires Inv(s) && key in s.nodes
    ensures s.nodes[key].reader in s.readers
  {
  }

  lemma SamplerIs(names: Names, s: State, c: nat, views: map<nat, View>)
    requires SamplersStand(s.samplers, views) && c in views
    ensures c in s.samplers
            && views[c] == View(s.samplers[c].key, s.samplers[c].id, s.samplers[c].max, s.samplers[c].list)
  {
  }

  lemma SamplerUpdated(names: Names, c: nat, views: map<nat, View>, view: View)
    requires Distinct(names) && c in names.samplers && views.Keys == names.samplers.Keys
    requires ViewOf(names.samplers[c]) == view
    requires forall c' | c' in names.samplers && names.samplers[c'] != names.samplers[c] ::
               ViewOf(names.samplers[c']) == views[c']
    ensures SamplerViews(names) == views[c := view]
  {
    ViewsAre(names, views[c := view]);
  }

  lemma ReaderUpdated(names: Names, r: nat, flags: map<nat, Flags>, flag: Flags)
    requires Distinct(names) && r in names.readers && flags.Keys == names.readers.Keys
    requires FlagsOf(names.readers[r]) == flag
    requires forall r' | r' in names.readers && names.readers[r'] != names.readers[r] ::
               FlagsOf(names.readers[r']) == flags[r']
    ensures ReaderViews(names) == flags[r := flag]
  {
    FlagsAre(names, flags[r := flag]);
  }

  lemma EnlistCounts(s: State, c: nat)
    requires c in s.samplers && s.samplers[c].key in s.nodes
    ensures Enlist(s, c).lastId == s.lastId + 1
  {
  }

  /** What the objects must look like after an entry was added to a node. */
  lemma EnlistedStands(m: Managed.Manager, c: nat, s: State, names: Names, container: map<Key, Managed.Node>,
                       views: map<nat, View>, flags: map<nat, Flags>)
    requires c in s.samplers && s.samplers[c].key in s.nodes
    requires c in names.samplers && Distinct(names) && NodesStand(names, s.nodes, container)
    requires SamplersStand(s.samplers, views) && ReadersStand(s.readers, flags)
    requires flags.Keys == names.readers.Keys && views.Keys == names.samplers.Keys
    requires m.m_id == s.lastId + 1 && s.samplers[c].key in container
    requires var key := s.samplers[c].key;
             m.m_container == container[key := Managed.Node(container[key].reader,
                                                            container[key].entries
                                                              + [Managed.Entry(names.samplers[c], s.lastId + 1)])]
    requires ViewOf(names.samplers[c]) == views[c].(id := s.lastId + 1)
    requires forall c' | c' in names.samplers && names.samplers[c'] != names.samplers[c] ::
               ViewOf(names.samplers[c']) == views[c']
    requires var r := s.nodes[s.samplers[c].key].reader;
             && r in names.readers && FlagsOf(names.readers[r]) == flags[r].(fn := true)
             && forall r' | r' in names.readers && names.readers[r'] != names.readers[r] ::
                  FlagsOf(names.readers[r']) == flags[r']
    ensures Represents(m, Enlist(s, c), names)
  {
    hide SamplersStand, ReadersStand, NodesStand, Enlist, Distinct;
    var r := s.nodes[s.samplers[c].key].reader;
    SamplersEnlisted(s, c, views);
    ReadersEnlisted(s, c, flags);
    NodesEnlisted(names, s, c, container);
    EnlistCounts(s, c);
    ReaderUpdated(names, r, flags, flags[r].(fn := true));
    SamplerUpdated(names, c, views, views[c].(id := s.lastId + 1));
  }

  /** Attaching to a node that exists is the protocol's step. */
  method AttachToNode(m: Managed.Manager, o: Objects.Sampler, started: bool, ghost c: nat, ghost s: State,
                      ghost names: Names)
    returns (ok: bool)
    requires Inv(s) && Represents(m, s, names) && s.holder.Free?
    requires c in names.samplers && names.samplers[c] == o && Managed.KeyOf(o) in m.m_container
    modifies m, o`m_sampler_id, ReaderObjects(names)`m_data_fn
    ensures Represents(m, AttachStep(s, c), names)
    ensures ok <==> AttachStep(s, c) != s
  {
    hide Inv, Managed.ValidContainer, SamplersStand, ReadersStand, NodesStand, Distinct, Enlist, Named;
    RepresentsValid(m, s, names);
    ghost var views, flags, key, container := SamplerViews(names), ReaderViews(names), Managed.KeyOf(o), m.m_container;
    NodeIs(names, s.nodes, m.m_container, key);
    SamplerIs(names, s, c, views);
    ReaderOfNode(s, key);
    QuitStands(s, s.nodes[key].reader, flags);
    EnlistCounts(s, c);
    ok := m.Attach(o, started);
    if ok {
      EnlistedStands(m, c, s, names, container, views, flags);
    } else {
      FlagsAre(names, flags);
      ViewsAre(names, views);
    }
  }

  /** Attaching to an address without a node, as a run: the client spawns the thread, the thread
      connects and greets, and the client stops waiting for it. */
  function AttachRun(s: State, c: nat): seq<Step> {
    [Attach(c), Thread(s.spawned, Nothing), Thread(s.spawned, Nothing), Await]
  }

  predicate CanSpawn(s: State, c: nat) {
    && Inv(s) && s.holder.Free?
    && c in s.samplers && s.samplers[c].id == 0 && s.samplers[c].key.port != 0 && s.samplers[c].key !in s.nodes
  }

  function Spawned(s: State, c: nat, pc: Pc, connected: bool, running: Running): State
    requires CanSpawn(s, c)
  {
    var x := Reader(s.samplers[c].key, pc, map[], false, connected, false, running, false, 0, 0);
    Spawn(s, c).(readers := s.readers[s.spawned := x])
  }

  lemma SpawnedComesUp(s: State, c: nat)
    requires CanSpawn(s, c)
    ensures Next(Next(Next(s, Attach(c)), Thread(s.spawned, Nothing)), Thread(s.spawned, Nothing))
            == Spawned(s, c, Guard, true, Up)
  {
    hide Inv;
    var s0, s1, s2 := Spawned(s, c, Connecting, false, Unknown), Spawned(s, c, Greeting, true, Unknown),
      Spawned(s, c, Guard, true, Up);
    assert Next(s, Attach(c)) == s0;
    assert s0.readers[s.spawned := s1.readers[s.spawned]] == s1.readers;
    assert Next(s0, Thread(s.spawned, Nothing)) == s1;
    assert s1.readers[s.spawned := s2.readers[s.spawned]] == s2.readers;
    assert Next(s1, Thread(s.spawned, Nothing)) == s2;
  }

  lemma AttachRunEnds(s: State, c: nat)
    requires CanSpawn(s, c)
    ensures c in Spawned(s, c, Guard, true, Up).samplers
    ensures Run(s, AttachRun(s, c)) == Enlist(Spawned(s, c, Guard, true, Up).(holder := Free), c)
  {
    hide Inv, Run, Enlist, Next;
    RunFour(s, Attach(c), Thread(s.spawned, Nothing), Thread(s.spawned, Nothing), Await);
    SpawnedComesUp(s, c);
    AwaitsUp(s, c);
  }

  lemma AwaitsUp(s: State, c: nat)
    requires CanSpawn(s, c)
    ensures var s' := Spawned(s, c, Guard, true, Up); Next(s', Await) == Enlist(s'.(holder := Free), c)
  {
    hide Inv, Enlist;
  }

  function WithReader(names: Names, r: nat, o: Managed.Reader): Names {
    names.(readers := names.readers[r := o])
  }

  lemma NodesSpawned(names: Names, s: State, c: nat, container: map<Key, Managed.Node>, o: Managed.Reader)
    requires CanSpawn(s, c) && NodesStand(names, s.nodes, container) && s.spawned !in names.readers
    ensures NodesStand(WithReader(names, s.spawned, o), Spawned(s, c, Guard, true, Up).nodes,
                       container[s.samplers[c].key := Managed.Node(o, [])])
  {
    hide Inv;
    var names' := WithReader(names, s.spawned, o);
    forall k | k in s.nodes ensures NodeStands(names', s.nodes[k], container[k]) {
      assert Named(names', s.nodes[k].entries) == Named(names, s.nodes[k].entries);
    }
    assert Named(names', []) == [];
  }

  lemma SpawnedFlags(s: State, c: nat, flags: map<nat, Flags>)
    requires CanSpawn(s, c) && ReadersStand(s.readers, flags)
    ensures s.spawned !in flags
    ensures ReadersStand(Spawned(s, c, Guard, true, Up).readers, flags[s.spawned := Flags(false, false)])
  {
    hide SamplersOk, EntriesOk, EmptyOk, ReaderOk;
  }

  lemma EnlistInNew(names: Names, s: State, c: nat, o: Managed.Reader, container: map<Key, Managed.Node>,
                    views: map<nat, View>, flags: map<nat, Flags>)
    requires CanSpawn(s, c) && NodesStand(names, s.nodes, container) && c in names.samplers
    requires SamplersStand(s.samplers, views) && ReadersStand(s.readers, flags) && flags.Keys == names.readers.Keys
    ensures c in views && s.spawned !in flags
    ensures var s', names', key := Run(s, AttachRun(s, c)), WithReader(names, s.spawned, o), s.samplers[c].key;
            && s'.lastId == s.lastId + 1
            && SamplersStand(s'.samplers, views[c := views[c].(id := s.lastId + 1)])
            && ReadersStand(s'.readers, flags[s.spawned := Flags(false, true)])
            && NodesStand(names', s'.nodes,
                          container[key := Managed.Node(o, [Managed.Entry(names.samplers[c], s.lastId + 1)])])
  {
    hide Inv, Enlist, Run, NodesStand, SamplersStand, ReadersStand;
    AttachRunEnds(s, c);
    SpawnedFlags(s, c, flags);
    NodesSpawned(names, s, c, container, o);
    var up := Spawned(s, c, Guard, true, Up).(holder := Free);
    var key := s.samplers[c].key;
    SamplersEnlisted(up, c, views);
    ReadersEnlisted(up, c, flags[s.spawned := Flags(false, false)]);
    NodesEnlisted(WithReader(names, s.spawned, o), up, c, container[key := Managed.Node(o, [])]);
    EnlistCounts(up, c);
    assert flags[s.spawned := Flags(false, false)][s.spawned := Flags(false, true)]
           == flags[s.spawned := Flags(false, true)];
    var node := Managed.Node(o, [Managed.Entry(names.samplers[c], s.lastId + 1)]);
    assert [] + node.entries == node.entries;
    assert container[key := Managed.Node(o, [])][key := node] == container[key := node];
  }

  /** What the objects must look like after a new node was added. */
  lemma NewNodeStands(m: Managed.Manager, r: Managed.Reader, c: nat, s: State, names: Names,
                      container: map<Key, Managed.Node>, views: map<nat, View>, flags: map<nat, Flags>)
    requires CanSpawn(s, c) && NodesStand(names, s.nodes, container) && c in names.samplers && Distinct(names)
    requires SamplersStand(s.samplers, views) && ReadersStand(s.readers, flags)
    requires flags.Keys == names.readers.Keys && views.Keys == names.samplers.Keys
    requires m.m_id == s.lastId + 1
    requires m.m_container
             == container[s.samplers[c].key := Managed.Node(r, [Managed.Entry(names.samplers[c], s.lastId + 1)])]
    requires ViewOf(names.samplers[c]) == views[c].(id := s.lastId + 1) && FlagsOf(r) == Flags(false, true)
    requires forall c' | c' in names.samplers && names.samplers[c'] != names.samplers[c] ::
               ViewOf(names.samplers[c']) == views[c']
    requires forall r' | r' in names.readers :: names.readers[r'] != r && FlagsOf(names.readers[r']) == flags[r']
    ensures Represents(m, Run(s, AttachRun(s, c)), WithReader(names, s.spawned, r))
  {
    hide Inv, SamplersStand, ReadersStand, NodesStand, Run;
    EnlistInNew(names, s, c, r, container, views, flags);
    var names' := WithReader(names, s.spawned, r);
    assert Distinct(names');
    var flags': map<nat, Flags> := flags[s.spawned := Flags(false, true)];
    assert flags'[s.spawned := Flags(false, true)] == flags';
    ReaderUpdated(names', s.spawned, flags', Flags(false, true));
    SamplerUpdated(names', c, views, views[c].(id := s.lastId + 1));
  }

  /** When the thread does not come up in time: the client tells it to quit, joins it and removes its
      node again. */
  function FailedAttach(s: State, c: nat): seq<Step>
    requires CanSpawn(s, c)
  {
    GivingUp(s, c);
    [Attach(c), Await] + JoinRun(Run(s, [Attach(c), Await]))
  }

  /** The thread that was told to quit before it connected. */
  function Unwanted(key: Key): Reader {
    Reader(key, Connecting, map[], true, false, false, Unknown, false, 0, 0)
  }

  lemma Spawns(s: State, c: nat)
    requires CanSpawn(s, c)
    ensures Next(s, Attach(c)) == Spawn(s, c)
  {
    hide Inv;
  }

  lemma GivesUp(s: State, c: nat)
    requires CanSpawn(s, c)
    ensures Next(Spawn(s, c), Await)
            == Spawn(s, c).(readers := s.readers[s.spawned := Unwanted(s.samplers[c].key)],
                            holder := Joining(s.samplers[c].key, s.spawned))
  {
    hide Inv, Enlist;
    var x := Unwanted(s.samplers[c].key);
    assert Spawn(s, c).readers[s.spawned := x] == s.readers[s.spawned := x];
  }

  lemma GivingUp(s: State, c: nat)
    requires CanSpawn(s, c)
    ensures var s' := Run(s, [Attach(c), Await]);
            && s' == Spawn(s, c).(readers := s.readers[s.spawned := Unwanted(s.samplers[c].key)],
                                  holder := Joining(s.samplers[c].key, s.spawned))
            && Returns(s')
  {
    hide Inv, Run, Next;
    RunTwo(s, Attach(c), Await);
    Spawns(s, c);
    GivesUp(s, c);
  }

  lemma FailedAttachEnds(s: State, c: nat)
    requires CanSpawn(s, c)
    ensures var s' := Run(s, FailedAttach(s, c));
            && s'.lastId == s.lastId && s'.nodes == s.nodes && s'.samplers == s.samplers && s'.holder.Free?
            && s.spawned !in s.readers && s.spawned in s'.readers && s'.readers[s.spawned].pc.Done?
            && s'.readers == s.readers[s.spawned := s'.readers[s.spawned]]
  {
    hide Inv, Run, JoinRun;
    GivingUp(s, c);
    FreshThread(s);
    var s1 := Run(s, [Attach(c), Await]);
    RunConcat(s, [Attach(c), Await], JoinRun(s1));
    JoinEnds(s1);
    var key, y := s.samplers[c].key, Ended(s1.readers[s.spawned]);
    assert s.nodes[key := Node(s.spawned, [])] - {key} == s.nodes;
    assert s1.readers[s.spawned := y] == s.readers[s.spawned := y];
  }

  lemma FreshThread(s: State)
    requires Inv(s)
    ensures s.spawned !in s.readers
  {
  }

  lemma MoreThreads(readers: map<nat, Reader>, r: nat, y: Reader, flags: map<nat, Flags>)
    requires ReadersStand(readers, flags) && r !in readers
    ensures ReadersStand(readers[r := y], flags)
  {
  }

  /** Attaching to an address without a node is the protocol's run, whether the thread comes up or not. */
  method AttachNewNode(m: Managed.Manager, o: Objects.Sampler, started: bool, ghost c: nat, ghost s: State,
                       ghost names: Names)
    returns (ok: bool, ghost names': Names)
    requires Inv(s) && Represents(m, s, names) && s.holder.Free?
    requires c in names.samplers && names.samplers[c] == o && Managed.KeyOf(o) !in m.m_container
    modifies m, o`m_sampler_id
    ensures ok <==> started && CanSpawn(s, c)
    ensures var after := if !CanSpawn(s, c) then s else Run(s, if ok then AttachRun(s, c) else FailedAttach(s, c));
            Represents(m, after, names')
    ensures names' == names || exists r :: fresh(r) && names' == WithReader(names, s.spawned, r)
  {
    hide Inv, Managed.ValidContainer, SamplersStand, ReadersStand, NodesStand, Enlist, Named, Run;
    RepresentsValid(m, s, names);
    ghost var views, flags, key := SamplerViews(names), ReaderViews(names), Managed.KeyOf(o);
    ghost var container := m.m_container;
    NodeIs(names, s.nodes, m.m_container, key);
    SamplerIs(names, s, c, views);
    ok := m.Attach(o, started);
    names' := names;
    if ok {
      var r := m.m_container[key].reader;
      assert m.m_container[key].entries == [Managed.Entry(o, s.lastId + 1)];
      NewNodeStands(m, r, c, s, names, container, views, flags);
      names' := WithReader(names, s.spawned, r);
    } else {
      FlagsAre(names, flags);
      ViewsAre(names, views);
      if CanSpawn(s, c) {
        FailedAttachEnds(s, c);
        MoreThreads(s.readers, s.spawned, Run(s, FailedAttach(s, c)).readers[s.spawned], flags);
      }
    }
  }

  // ----- detaching

  /** A call that joins a thread comes back only if the thread can end. */
  predicate CanReturn(s: State) {
    s.holder.Joining? ==> Returns(s)
  }

  /** It comes back after the thread's own steps to its end. */
  function Settled(s: State): State
    requires CanReturn(s)
  {
    if s.holder.Joining? then Run(s, JoinRun(s)) else s
  }

  predicate Detachable(s: State, c: nat) {
    && c in s.samplers && s.samplers[c].id != 0 && s.samplers[c].key in s.nodes
    && HasId(s.nodes[s.samplers[c].key].entries, s.samplers[c].id)
  }

  function Rest(s: State, c: nat): seq<Entry>
    requires Detachable(s, c)
  {
    var entries := s.nodes[s.samplers[c].key].entries;
    Filter(entries, Others(entries, s.samplers[c].id))
  }

  lemma RestNamed(names: Names, entries: seq<Entry>, id: nat)
    requires Known(names, entries)
    ensures Known(names, Filter(entries, Others(entries, id)))
    ensures Filter(Named(names, entries), Managed.Others(Named(names, entries), id))
            == Named(names, Filter(entries, Others(entries, id)))
  {
    var objects := Named(names, entries);
    forall i | 0 <= i < |entries|
      ensures entries[i] in Others(entries, id) <==> objects[i] in Managed.Others(objects, id)
    {
      assert entries[i] in Others(entries, id) <==> entries[i].id != id;
      assert objects[i] in Managed.Others(objects, id) <==> objects[i].id != id;
    }
    FilterNamed(names, entries, Others(entries, id), Managed.Others(objects, id));
  }

  lemma IdNamed(names: Names, entries: seq<Entry>, id: nat)
    requires Known(names, entries)
    ensures HasId(entries, id) <==> exists j :: 0 <= j < |Named(names, entries)| && Named(names, entries)[j].id == id
  {
    if HasId(entries, id) {
      var i :| 0 <= i < |entries| && entries[i].id == id;
      assert Named(names, entries)[i].id == id;
    }
  }

  lemma DetachParts(s: State, c: nat)
    requires Inv(s) && s.holder.Free? && Detachable(s, c)
    ensures var s', key, rest := DetachStep(s, c), s.samplers[c].key, Rest(s, c);
            var r := s.nodes[key].reader;
            && r in s.readers && s'.lastId == s.lastId
            && s'.samplers == s.samplers[c := s.samplers[c].(id := 0)]
            && s'.nodes == s.nodes[key := Node(r, rest)]
            && s'.holder == (if rest == [] then Joining(key, r) else Free)
            && s'.readers == (if rest == [] then s.readers[r := s.readers[r].(fn := false, quit := true)]
                              else s.readers)
  {
    hide Filter, Others, SamplersOk, EmptyOk, EntriesOk, HasId;
  }

  /** Which calls come back, exactly. */
  lemma DetachReturns(s: State, c: nat)
    requires Inv(s) && s.holder.Free? && Detachable(s, c)
    ensures var r := s.nodes[s.samplers[c].key].reader;
            r in s.readers && (CanReturn(DetachStep(s, c)) <==> !(Rest(s, c) == [] && Stuck(s.readers[r].pc)))
  {
    hide Inv, DetachStep, HasId, Rest;
    DetachParts(s, c);
  }

  /** The step, and for a node's last sampler the end of its thread. */
  lemma SettledParts(s: State, c: nat)
    requires Inv(s) && s.holder.Free? && Detachable(s, c) && CanReturn(DetachStep(s, c))
    ensures var s', key, rest := Settled(DetachStep(s, c)), s.samplers[c].key, Rest(s, c);
            var r := s.nodes[key].reader;
            && r in s.readers && r in s'.readers && s'.lastId == s.lastId && s'.holder.Free?
            && s'.samplers == s.samplers[c := s.samplers[c].(id := 0)]
            && s'.nodes == (if rest == [] then s.nodes - {key} else s.nodes[key := Node(r, rest)])
            && (rest == [] ==> s'.readers[r].quit && !s'.readers[r].fn)
            && s'.readers == (if rest == [] then s.readers[r := s'.readers[r]] else s.readers)
  {
    hide Inv, DetachStep, HasId, Rest, Run, JoinRun;
    DetachParts(s, c);
    var s0, key := DetachStep(s, c), s.samplers[c].key;
    var r := s.nodes[key].reader;
    if s0.holder.Joining? {
      JoinEnds(s0);
      assert s.nodes[key := Node(r, [])] - {key} == s.nodes - {key};
      var y := Ended(s0.readers[r]);
      assert s.readers[r := s0.readers[r]][r := y] == s.readers[r := y];
    }
  }

  /** The state after it is one that the protocol reaches. */
  lemma SettledInv(s: State, c: nat)
    requires Inv(s) && CanReturn(DetachStep(s, c))
    ensures Inv(Settled(DetachStep(s, c)))
  {
    hide Inv, DetachStep, Run;
    DetachIsStep(s, c);
    NextInv(s, Step.Detach(c));
    if DetachStep(s, c).holder.Joining? {
      RunKeepsInv(DetachStep(s, c), JoinRun(DetachStep(s, c)));
    }
  }

  lemma DetachIsStep(s: State, c: nat)
    ensures Next(s, Step.Detach(c)) == DetachStep(s, c)
  {
  }

  lemma SamplersDetached(samplers: map<nat, Sampler>, c: nat, views: map<nat, View>)
    requires SamplersStand(samplers, views) && c in samplers
    ensures c in views && SamplersStand(samplers[c := samplers[c].(id := 0)], views[c := views[c].(id := 0)])
  {
  }

  lemma ReadersStopped(readers: map<nat, Reader>, r: nat, y: Reader, flags: map<nat, Flags>)
    requires ReadersStand(readers, flags) && y.quit && !y.fn
    ensures ReadersStand(readers[r := y], flags[r := Flags(true, false)])
  {
  }

  lemma NodesDetached(names: Names, nodes: map<Key, Node>, container: map<Key, Managed.Node>, key: Key,
                      rest: seq<Entry>)
    requires NodesStand(names, nodes, container) && key in nodes && Known(names, rest)
    ensures key in container
    ensures NodesStand(names, nodes - {key}, container - {key})
    ensures NodesStand(names, nodes[key := Node(nodes[key].reader, rest)],
                       container[key := Managed.Node(container[key].reader, Named(names, rest))])
  {
  }

  /** What the objects must look like after an entry was taken out of a node. */
  lemma DetachedStands(m: Managed.Manager, c: nat, s: State, names: Names, container: map<Key, Managed.Node>,
                       views: map<nat, View>, flags: map<nat, Flags>)
    requires Inv(s) && s.holder.Free? && Detachable(s, c) && CanReturn(DetachStep(s, c))
    requires c in names.samplers && Distinct(names)
    requires NodesStand(names, s.nodes, container) && SamplersStand(s.samplers, views) && ReadersStand(s.readers, flags)
    requires flags.Keys == names.readers.Keys && views.Keys == names.samplers.Keys && Known(names, Rest(s, c))
    requires m.m_id == s.lastId && s.samplers[c].key in container
    requires var key, rest := s.samplers[c].key, Rest(s, c);
             m.m_container == (if rest == [] then container - {key}
                               else container[key := Managed.Node(container[key].reader, Named(names, rest))])
    requires ViewOf(names.samplers[c]) == views[c].(id := 0)
    requires forall c' | c' in names.samplers && names.samplers[c'] != names.samplers[c] ::
               ViewOf(names.samplers[c']) == views[c']
    requires var r := s.nodes[s.samplers[c].key].reader;
             && r in names.readers
             && FlagsOf(names.readers[r]) == (if Rest(s, c) == [] then Flags(true, false) else flags[r])
             && forall r' | r' in names.readers && names.readers[r'] != names.readers[r] ::
                  FlagsOf(names.readers[r']) == flags[r']
    ensures Represents(m, Settled(DetachStep(s, c)), names) && Settled(DetachStep(s, c)).holder.Free?
  {
    hide Inv, SamplersStand, ReadersStand, NodesStand, Distinct, Settled, DetachStep, Rest, HasId;
    SettledParts(s, c);
    var key, rest := s.samplers[c].key, Rest(s, c);
    var r := s.nodes[key].reader;
    SamplersDetached(s.samplers, c, views);
    var s' := Settled(DetachStep(s, c));
    if rest == [] {
      ReadersStopped(s.readers, r, s'.readers[r], flags);
    }
    NodesDetached(names, s.nodes, container, key, rest);
    ReaderUpdated(names, r, flags, FlagsOf(names.readers[r]));
    assert flags[r := flags[r]] == flags;
    SamplerUpdated(names, c, views, views[c].(id := 0));
  }

  lemma NotDetached(s: State, c: nat)
    requires s.holder.Free? && !Detachable(s, c)
    ensures DetachStep(s, c) == s && CanReturn(s) && Settled(s) == s
  {
  }

  /** Detaching is the protocol's step, and for a node's last sampler the run of its thread to its end and
      the end of the join; a call that joins a stuck thread does not come back. */
  method Detach(m: Managed.Manager, o: Objects.Sampler, ghost c: nat, ghost s: State, ghost names: Names)
    returns (ok: bool)
    requires Inv(s) && Represents(m, s, names) && s.holder.Free? && c in names.samplers && names.samplers[c] == o
    modifies m`m_container, o`m_sampler_id, ReaderObjects(names)
    ensures CanReturn(DetachStep(s, c)) ==>
              var s' := Settled(DetachStep(s, c)); Represents(m, s', names) && Inv(s') && s'.holder.Free?
    ensures c in s.samplers && (ok <==> s.samplers[c].id != 0)
  {
    hide Inv, Managed.ValidContainer, SamplersStand, ReadersStand, NodesStand, Distinct, Filter, Managed.Others,
      Others, HasId, DetachStep, Named, Known, Settled, CanReturn;
    RepresentsValid(m, s, names);
    ghost var views, flags, key, container := SamplerViews(names), ReaderViews(names), Managed.KeyOf(o), m.m_container;
    NodeIs(names, s.nodes, m.m_container, key);
    SamplerIs(names, s, c, views);
    if key in m.m_container {
      ReaderOfNode(s, key);
      IdNamed(names, s.nodes[key].entries, o.m_sampler_id);
      RestNamed(names, s.nodes[key].entries, o.m_sampler_id);
    }
    ok := m.Detach(o);
    if Detachable(s, c) {
      if CanReturn(DetachStep(s, c)) {
        DetachedStands(m, c, s, names, container, views, flags);
        SettledInv(s, c);
      }
    } else {
      NotDetached(s, c);
      FlagsAre(names, flags);
      ViewsAre(names, views);
    }
  }

  // ----- a client and its queue

  lemma SamplerChanged(s: State, c: nat, x: Sampler, views: map<nat, View>)
    requires SamplersStand(s.samplers, views)
    ensures SamplersStand(s.samplers[c := x], views[c := View(x.key, x.id, x.max, x.list)])
  {
  }

  /** get_data is the protocol's step. */
  method Take(m: Managed.Manager, o: Objects.Sampler, ghost c: nat, ghost s: State, ghost names: Names)
    returns (data: Batch, result: bool)
    requires Represents(m, s, names) && c in names.samplers && names.samplers[c] == o
    modifies o`m_list
    ensures Represents(m, TakeStep(s, c), names)
    ensures c in s.samplers && (result <==> Available(s.samplers[c].list)) && (result ==> data == s.samplers[c].list[0])
  {
    hide SamplersStand, ReadersStand, NodesStand;
    ghost var views, flags := SamplerViews(names), ReaderViews(names);
    SamplerIs(names, s, c, views);
    data, result := o.GetData();
    FlagsAre(names, flags);
    if result {
      var x := TakeStep(s, c).samplers[c];
      SamplerChanged(s, c, x, views);
      SamplerUpdated(names, c, views, View(x.key, x.id, x.max, x.list));
    } else {
      ViewsAre(names, views);
    }
  }

  /** set_list_maximum is the protocol's step. */
  method SetMaximum(m: Managed.Manager, o: Objects.Sampler, value: nat, ghost c: nat, ghost s: State,
                    ghost names: Names)
    returns (result: bool)
    requires Represents(m, s, names) && c in names.samplers && names.samplers[c] == o
    modifies o`m_list_max
    ensures Represents(m, MaximumStep(s, c, value), names) && result
  {
    hide SamplersStand, ReadersStand, NodesStand;
    ghost var views, flags := SamplerViews(names), ReaderViews(names);
    SamplerIs(names, s, c, views);
    result := o.SetListMaximum(value);
    FlagsAre(names, flags);
    var x := s.samplers[c].(max := value);
    SamplerChanged(s, c, x, views);
    SamplerUpdated(names, c, views, View(x.key, x.id, x.max, x.list));
  }
}
