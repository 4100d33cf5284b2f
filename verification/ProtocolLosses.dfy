/** What overflow costs for good, exactly: which steps of a run put a sampler out of its node, and which
    leave an address dead. */
module ProtocolLosses {
  import opened Buffering
  import opened Protocol
  import opened ProtocolInvariants
  import opened ProtocolTheorems

  // ----- steps of threads

  /** A thread's step that serves the node of its address: a batch, or the final empty one. */
  predicate Publishing(s: State, step: Step, key: Key) {
    && step.Thread? && step.reader in s.readers && s.readers[step.reader].key == key && s.holder.Free?
    && (s.readers[step.reader].pc.Slot? || s.readers[step.reader].pc.FinalSlot?)
  }

  /** The step publishes to an attached sampler that refuses. */
  predicate PutsOut(s: State, step: Step, c: nat) {
    && Attached(s, c) && Publishing(s, step, s.samplers[c].key) && !Accepts(s.samplers[c].list, s.samplers[c].max)
  }

  lemma PublishingServes(s: State, step: Step, key: Key)
    requires Inv(s) && Publishing(s, step, key)
    ensures key in s.nodes && s.nodes[key].reader == step.reader
    ensures var x := s.readers[step.reader];
            var s', data := Next(s, step), if x.pc.Slot? then x.batch else map[];
            && s'.nodes == Serve(s, key, data).nodes && s'.samplers == Serve(s, key, data).samplers
            && s'.holder == s.holder && (x.quit ==> Quits(s', step.reader))
            && (x.pc.FinalSlot? ==> x.quit) && (!x.quit ==> !Quits(s', step.reader))
            && (forall r | r != step.reader :: Quits(s', r) <==> Quits(s, r))
  {
    hide SamplersOk, EntriesOk, EmptyOk, Filter, Published, Accepting, Local;
  }

  /** Any other step of a thread leaves nodes, samplers and mutex alone. */
  lemma NotPublishing(s: State, r: nat, e: Event)
    requires !(r in s.readers && Publishing(s, Thread(r, e), s.readers[r].key))
    ensures var s' := Next(s, Thread(r, e));
            && s'.nodes == s.nodes && s'.samplers == s.samplers && s'.holder == s.holder
            && s'.readers == (if r in s.readers && !s.readers[r].pc.Slot? && !s.readers[r].pc.FinalSlot?
                              then s.readers[r := Local(s.readers[r], e)] else s.readers)
  {
    hide Local, SetDataSlot;
  }

  /** Serving keeps exactly the samplers that accept. */
  lemma ServedLists(s: State, key: Key, data: Batch, c: nat)
    requires Inv(s) && key in s.nodes && c in s.samplers
    ensures Lists(Serve(s, key, data).nodes[key].entries, c)
            <==> Lists(s.nodes[key].entries, c) && Accepts(s.samplers[c].list, s.samplers[c].max)
  {
    hide NodesOk, EmptyOk, SamplersOk, Published, EntryOk, Accepts;
    var entries := s.nodes[key].entries;
    var keep := Accepting(entries, s.samplers);
    var rest := Filter(entries, keep);
    if Lists(rest, c) {
      var i :| 0 <= i < |rest| && rest[i].sampler == c;
      FilterMember(entries, keep, rest[i]);
    }
    if Lists(entries, c) && Accepts(s.samplers[c].list, s.samplers[c].max) {
      var i :| 0 <= i < |entries| && entries[i].sampler == c;
      FilterMember(entries, keep, entries[i]);
    }
  }

  lemma ServedKeeps(s: State, key: Key, data: Batch)
    requires key in s.nodes
    ensures var s' := Serve(s, key, data);
            && s'.nodes.Keys == s.nodes.Keys && s'.nodes[key].reader == s.nodes[key].reader
            && (forall k | k in s.nodes && k != key :: s'.nodes[k] == s.nodes[k])
            && s'.samplers.Keys == s.samplers.Keys
            && forall c | c in s.samplers ::
                 s'.samplers[c].key == s.samplers[c].key && s'.samplers[c].id == s.samplers[c].id
  {
  }

  lemma AttachedHasId(s: State, c: nat)
    requires Inv(s) && Attached(s, c)
    ensures s.samplers[c].id != 0
  {
    var entries := s.nodes[s.samplers[c].key].entries;
    var i :| 0 <= i < |entries| && entries[i].sampler == c;
    assert EntryOk(s.samplers[c].key, entries[i], s.samplers);
    hide NodesOk, EmptyOk, SamplersOk;
  }

  lemma KeyOfReader(s: State, key: Key)
    requires Inv(s) && key in s.nodes
    ensures s.nodes[key].reader in s.readers && s.readers[s.nodes[key].reader].key == key
  {
    hide EntriesOk, EmptyOk, SamplersOk;
  }

  lemma ThreadEvicts(s: State, step: Step, c: nat)
    requires Inv(s) && step.Thread? && !Evicted(s, c)
    ensures Evicted(Next(s, step), c) <==> PutsOut(s, step, c)
  {
    hide Inv, Next, Lists, Accepts, Serve;
    var r := step.reader;
    if r in s.readers && Publishing(s, step, s.readers[r].key) {
      var key := s.readers[r].key;
      var data := if s.readers[r].pc.Slot? then s.readers[r].batch else map[];
      PublishingServes(s, step, key);
      ServedKeeps(s, key, data);
      if c in s.samplers {
        ServedLists(s, key, data, c);
        if Attached(s, c) {
          AttachedHasId(s, c);
        }
      }
    } else {
      NotPublishing(s, r, step.event);
    }
  }

  // ----- eviction

  lemma EnlistEvictsNobody(s: State, c': nat, c: nat)
    requires !Evicted(s, c) && c' in s.samplers && s.samplers[c'].key in s.nodes
    ensures !Evicted(Enlist(s, c'), c)
  {
    var entries := s.nodes[s.samplers[c'].key].entries;
    var grown := entries + [Entry(c', s.lastId + 1)];
    assert grown[|entries|].sampler == c';
    if Lists(entries, c) {
      var i :| 0 <= i < |entries| && entries[i].sampler == c;
      assert grown[i].sampler == c;
    }
  }

  lemma AttachEvictsNobody(s: State, c': nat, c: nat)
    requires Inv(s) && !Evicted(s, c)
    ensures !Evicted(AttachStep(s, c'), c)
  {
    hide Enlist, Inv;
    if c' in s.samplers && s.samplers[c'].key in s.nodes {
      EnlistEvictsNobody(s, c', c);
    }
  }

  lemma AwaitEvictsNobody(s: State, c: nat)
    requires Inv(s) && !Evicted(s, c)
    ensures !Evicted(AwaitStep(s), c)
  {
    hide Enlist, SamplersOk, NodesOk, EntriesOk, EmptyOk;
    if s.holder.Starting? {
      EnlistEvictsNobody(s.(holder := Free), s.holder.client, c);
    }
  }

  lemma DetachEvictsNobody(s: State, c': nat, c: nat)
    requires Inv(s) && !Evicted(s, c)
    ensures !Evicted(DetachStep(s, c'), c)
  {
    hide NodesOk, EmptyOk, Filter, Others;
    if DetachStep(s, c') != s && Attached(s, c) && c != c' && s.samplers[c].key == s.samplers[c'].key {
      var x := s.samplers[c'];
      var entries := s.nodes[x.key].entries;
      var i :| 0 <= i < |entries| && entries[i].sampler == c;
      assert EntriesOk(x.key, entries, s.samplers);
      assert EntryOk(x.key, entries[i], s.samplers);
      RestLists(entries, x.id, i);
    }
  }

  lemma RestLists(entries: seq<Entry>, id: nat, i: nat)
    requires i < |entries| && entries[i].id != id
    ensures Lists(Filter(entries, Others(entries, id)), entries[i].sampler)
  {
    FilterMember(entries, Others(entries, id), entries[i]);
    hide Filter, Others;
  }

  lemma JoinedEvictsNobody(s: State, c: nat)
    requires Inv(s) && !Evicted(s, c)
    ensures !Evicted(JoinedStep(s), c)
  {
    hide SamplersOk, NodesOk, EntriesOk, EmptyOk;
  }

  lemma QueueStepsEvictNobody(s: State, step: Step, c: nat)
    requires !Evicted(s, c) && (step.Take? || step.Maximum?)
    ensures !Evicted(Next(s, step), c)
  {
    hide ThreadStep, AttachStep, AwaitStep, JoinedStep, DetachStep, Lists;
  }

  /** Which steps evict, exactly: those that publish, a batch or the final empty one, to an attached
      sampler whose queue refuses. */
  lemma RefusalEvicts(s: State, step: Step, c: nat)
    requires Inv(s) && !Evicted(s, c)
    ensures Evicted(Next(s, step), c) <==> PutsOut(s, step, c)
  {
    hide Inv, Evicted, Attached, ThreadStep, AttachStep, AwaitStep, JoinedStep, DetachStep, TakeStep, MaximumStep;
    match step {
      case Thread(_, _) => ThreadEvicts(s, step, c);
      case Attach(c') => AttachEvictsNobody(s, c', c);
      case Await => AwaitEvictsNobody(s, c);
      case Joined => JoinedEvictsNobody(s, c);
      case Detach(c') => DetachEvictsNobody(s, c', c);
      case _ => QueueStepsEvictNobody(s, step, c);
    }
  }

  // ----- dead addresses

  /** The step leaves an address dead: its thread sets quit after a refusal of every sampler, or it
      publishes with quit set, the final empty batch for one, and every sampler refuses. */
  predicate Strands(s: State, step: Step, key: Key) {
    && key in s.nodes && step.Thread? && step.reader == s.nodes[key].reader && step.reader in s.readers
    && var x, entries := s.readers[step.reader], s.nodes[key].entries;
    || (x.pc.Refused? && entries == [] && !Busy(s.holder, step.reader))
    || (Publishing(s, step, key) && x.quit && forall i | 0 <= i < |entries| :: !Takes(s, entries[i]))
  }

  lemma ServedEmpty(s: State, key: Key, data: Batch)
    requires Inv(s) && key in s.nodes
    ensures Serve(s, key, data).nodes[key].entries == []
            <==> forall i | 0 <= i < |s.nodes[key].entries| :: !Takes(s, s.nodes[key].entries[i])
  {
    hide NodesOk, EmptyOk, SamplersOk, Published, Accepts;
    var entries := s.nodes[key].entries;
    var keep := Accepting(entries, s.samplers);
    var rest := Filter(entries, keep);
    if rest != [] {
      FilterMember(entries, keep, rest[0]);
      var i :| 0 <= i < |entries| && entries[i] == rest[0];
      assert Takes(s, entries[i]);
    }
    forall i | 0 <= i < |entries| && Takes(s, entries[i]) ensures rest != [] {
      FilterMember(entries, keep, entries[i]);
    }
  }

  /** A thread outside set_data_slot sets quit only when it already counts as quitting, or refused. */
  lemma LocalQuits(s: State, r: nat, e: Event, key: Key)
    requires Inv(s) && r in s.readers && !s.readers[r].pc.Slot? && !s.readers[r].pc.FinalSlot?
    requires key in s.nodes && s.nodes[key].reader == r && s.nodes[key].entries == [] && !Busy(s.holder, r)
    ensures s.readers[r].quit || s.readers[r].pc.Refused?
    ensures s.readers[r].pc.Refused? ==> Local(s.readers[r], e).quit
    ensures s.readers[r].quit ==> Local(s.readers[r], e).quit
  {
    assert EmptyOk(s.nodes[key], s.readers, s.holder);
    LocalKeepsReader(s.readers[r], e);
    hide SamplersOk, EntriesOk, NodesOk;
  }

  lemma ThreadStrands(s: State, step: Step, key: Key)
    requires Inv(s) && step.Thread? && !Dead(s, key)
    ensures Dead(Next(s, step), key) <==> Strands(s, step, key)
  {
    var r := step.reader;
    if r in s.readers && Publishing(s, step, s.readers[r].key) {
      PublishingStrands(s, step, key);
      hide Inv, Next, Dead, Strands;
    } else {
      LocalStrands(s, step, key);
      hide Inv, Next, Dead, Strands;
    }
  }

  lemma PublishingStrands(s: State, step: Step, key: Key)
    requires Inv(s) && step.Thread? && step.reader in s.readers && Publishing(s, step, s.readers[step.reader].key)
    requires !Dead(s, key)
    ensures Dead(Next(s, step), key) <==> Strands(s, step, key)
  {
    hide Inv, Next, Takes, Serve;
    var r := step.reader;
    var own, data := s.readers[r].key, if s.readers[r].pc.Slot? then s.readers[r].batch else map[];
    PublishingServes(s, step, own);
    ServedKeeps(s, own, data);
    ServedEmpty(s, own, data);
    if key in s.nodes {
      KeyOfReader(s, key);
    }
  }

  lemma LocalStrands(s: State, step: Step, key: Key)
    requires Inv(s) && step.Thread? && !Dead(s, key)
    requires !(step.reader in s.readers && Publishing(s, step, s.readers[step.reader].key))
    ensures Dead(Next(s, step), key) <==> Strands(s, step, key)
  {
    hide Inv, Next, Takes, Local;
    var r := step.reader;
    NotPublishing(s, r, step.event);
    if key in s.nodes && s.nodes[key].entries == [] && s.nodes[key].reader == r && !Busy(s.holder, r) && r in s.readers
       && !s.readers[r].pc.Slot? && !s.readers[r].pc.FinalSlot? {
      LocalQuits(s, r, step.event, key);
    }
  }

  lemma AttachStrandsNothing(s: State, c: nat, key: Key)
    requires Inv(s) && !Dead(s, key)
    ensures !Dead(AttachStep(s, c), key)
  {
    hide SamplersOk, EntriesOk, ReaderOk;
  }

  lemma AwaitStrandsNothing(s: State, key: Key)
    requires Inv(s) && !Dead(s, key)
    ensures !Dead(AwaitStep(s), key)
  {
    hide SamplersOk, EntriesOk, ReaderOk;
  }

  lemma DetachStrandsNothing(s: State, c: nat, key: Key)
    requires Inv(s) && !Dead(s, key)
    ensures !Dead(DetachStep(s, c), key)
  {
    hide SamplersOk, EntriesOk, ReaderOk, EmptyOk, Filter, Others;
  }

  lemma OthersStrandNothing(s: State, step: Step, key: Key)
    requires Inv(s) && !Dead(s, key) && (step.Joined? || step.Take? || step.Maximum?)
    ensures !Dead(Next(s, step), key)
  {
    hide SamplersOk, EntriesOk, ReaderOk, EmptyOk, ThreadStep, AttachStep, AwaitStep, DetachStep;
  }

  /** Which steps leave an address dead, exactly. */
  lemma OverflowStrands(s: State, step: Step, key: Key)
    requires Inv(s) && !Dead(s, key)
    ensures Dead(Next(s, step), key) <==> Strands(s, step, key)
  {
    hide Inv, Dead, ThreadStep, AttachStep, AwaitStep, JoinedStep, DetachStep, TakeStep, MaximumStep;
    match step {
      case Thread(_, _) => ThreadStrands(s, step, key);
      case Attach(c) => AttachStrandsNothing(s, c, key);
      case Await => AwaitStrandsNothing(s, key);
      case Detach(c) => DetachStrandsNothing(s, c, key);
      case _ => OthersStrandNothing(s, step, key);
    }
  }

  // ----- whole runs

  /** One of the steps of a run strands the address. */
  predicate Stranded(s: State, steps: seq<Step>, key: Key) {
    exists i :: 0 <= i < |steps| && Strands(Run(s, steps[..i]), steps[i], key)
  }

  lemma StrandedSoFar(s: State, steps: seq<Step>, key: Key)
    requires steps != []
    ensures var n := |steps| - 1;
            Stranded(s, steps, key) <==> Stranded(s, steps[..n], key) || Strands(Run(s, steps[..n]), steps[n], key)
  {
    hide Strands, Run;
    var n := |steps| - 1;
    var init := steps[..n];
    assert forall i | 0 <= i < n :: init[i] == steps[i] && init[..i] == steps[..i];
    if Stranded(s, init, key) {
      var i :| 0 <= i < n && Strands(Run(s, init[..i]), init[i], key);
      assert Strands(Run(s, steps[..i]), steps[i], key);
    }
    if Stranded(s, steps, key) {
      var i :| 0 <= i < |steps| && Strands(Run(s, steps[..i]), steps[i], key);
      assert i < n ==> Strands(Run(s, init[..i]), init[i], key);
    }
  }

  lemma {:induction false} DeadByAStep(s: State, steps: seq<Step>, key: Key)
    requires Inv(s) && !Dead(s, key)
    ensures Dead(Run(s, steps), key) <==> Stranded(s, steps, key)
    decreases |steps|
  {
    hide Inv, Next, Dead, Strands, Stranded;
    if steps == [] {
      NothingStranded(s, key);
    } else {
      var n := |steps| - 1;
      var init, before := steps[..n], Run(s, steps[..n]);
      DeadByAStep(s, init, key);
      RunKeepsInv(s, init);
      StrandedSoFar(s, steps, key);
      if Dead(before, key) {
        DeadStep(before, steps[n], key);
      } else {
        OverflowStrands(before, steps[n], key);
      }
    }
  }

  lemma NothingStranded(s: State, key: Key)
    ensures !Stranded(s, [], key)
  {
  }

  /** When an address is dead, exactly: at the end of any run from the start it is if and only if one
      of the steps of the run stranded it. */
  lemma DeadExactly(samplers: map<nat, Sampler>, steps: seq<Step>, key: Key)
    requires Unused(samplers)
    ensures Dead(Run(Init(samplers), steps), key) <==> Stranded(Init(samplers), steps, key)
  {
    InitInv(samplers);
    hide Inv, Run, Next, Strands, Stranded;
    assert !Dead(Init(samplers), key);
    DeadByAStep(Init(samplers), steps, key);
  }

  /** One of the steps of a run puts the sampler out. */
  predicate WasPutOut(s: State, steps: seq<Step>, c: nat) {
    exists i :: 0 <= i < |steps| && PutsOut(Run(s, steps[..i]), steps[i], c)
  }

  lemma PutOutSoFar(s: State, steps: seq<Step>, c: nat)
    requires steps != []
    ensures var n := |steps| - 1;
            WasPutOut(s, steps, c) <==> WasPutOut(s, steps[..n], c) || PutsOut(Run(s, steps[..n]), steps[n], c)
  {
    hide PutsOut, Run;
    var n := |steps| - 1;
    var init := steps[..n];
    assert forall i | 0 <= i < n :: init[i] == steps[i] && init[..i] == steps[..i];
    if WasPutOut(s, init, c) {
      var i :| 0 <= i < n && PutsOut(Run(s, init[..i]), init[i], c);
      assert PutsOut(Run(s, steps[..i]), steps[i], c);
    }
    if WasPutOut(s, steps, c) {
      var i :| 0 <= i < |steps| && PutsOut(Run(s, steps[..i]), steps[i], c);
      assert i < n ==> PutsOut(Run(s, init[..i]), init[i], c);
    }
  }

  lemma {:induction false} EvictedByAStep(s: State, steps: seq<Step>, c: nat)
    requires Inv(s) && !Evicted(s, c)
    ensures Evicted(Run(s, steps), c) <==> WasPutOut(s, steps, c)
    decreases |steps|
  {
    hide Inv, Next, Evicted, PutsOut, WasPutOut;
    if steps == [] {
      NobodyPutOut(s, c);
    } else {
      var n := |steps| - 1;
      var init, before := steps[..n], Run(s, steps[..n]);
      EvictedByAStep(s, init, c);
      RunKeepsInv(s, init);
      PutOutSoFar(s, steps, c);
      if Evicted(before, c) {
        EvictedStep(before, steps[n], c);
      } else {
        RefusalEvicts(before, steps[n], c);
      }
    }
  }

  lemma NobodyPutOut(s: State, c: nat)
    ensures !WasPutOut(s, [], c)
  {
  }

  /** Who has been evicted, exactly: at the end of any run from the start, the samplers to which some
      step of the run published in vain. */
  lemma EvictedExactly(samplers: map<nat, Sampler>, steps: seq<Step>, c: nat)
    requires Unused(samplers)
    ensures Evicted(Run(Init(samplers), steps), c) <==> WasPutOut(Init(samplers), steps, c)
  {
    InitInv(samplers);
    hide Inv, Run, Next, PutsOut, WasPutOut;
    EvictedByAStep(Init(samplers), steps, c);
  }
}
