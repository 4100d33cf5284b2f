/** What the protocol promises, in every interleaving of threads and clients. */
module ProtocolTheorems {
  import opened Buffering
  import opened Protocol
  import opened ProtocolInvariants

  predicate Attached(s: State, c: nat) {
    c in s.samplers && s.samplers[c].key in s.nodes && Lists(s.nodes[s.samplers[c].key].entries, c)
  }

  predicate Lossless(x: Sampler) {
    x.leftover + x.published == x.delivered + x.list
  }

  // ----- attached means lossless

  /** While a sampler is attached, everything given to set_data is delivered or queued, in order,
      if and only if no publish under a maximum of one has squeezed a batch out. */
  lemma AttachedMeansLossless(samplers: map<nat, Sampler>, steps: seq<Step>, c: nat)
    requires Unused(samplers) && Attached(Run(Init(samplers), steps), c)
    ensures var x := Run(Init(samplers), steps).samplers[c];
            Lossless(x) <==> x.squeezed == 0
  {
    Reachable(samplers, steps);
    hide Inv, Run;
    var x := Run(Init(samplers), steps).samplers[c];
    if Lossless(x) {
      assert |x.leftover| + |x.published| == |x.leftover + x.published|;
      assert |x.delivered| + |x.list| == |x.delivered + x.list|;
    }
  }

  predicate NoOnes(samplers: map<nat, Sampler>) {
    forall c <- samplers :: samplers[c].max != 1 && samplers[c].squeezed == 0
  }

  lemma NextNoOnes(s: State, step: Step)
    requires NoOnes(s.samplers) && (step.Maximum? ==> step.value != 1)
    ensures NoOnes(Next(s, step).samplers)
  {
  }

  lemma {:induction false} RunNoOnes(s: State, steps: seq<Step>)
    requires NoOnes(s.samplers)
    requires forall i | 0 <= i < |steps| :: steps[i].Maximum? ==> steps[i].value != 1
    ensures NoOnes(Run(s, steps).samplers)
    decreases |steps|
  {
    hide NoOnes, Next;
    if steps != [] {
      RunNoOnes(s, steps[..|steps| - 1]);
      NextNoOnes(Run(s, steps[..|steps| - 1]), steps[|steps| - 1]);
    }
  }

  /** With no maximum of one anywhere in the run, an attached sampler never loses a batch. */
  lemma NeverOneNeverLoses(samplers: map<nat, Sampler>, steps: seq<Step>, c: nat)
    requires Unused(samplers) && (forall c <- samplers :: samplers[c].max != 1)
    requires forall i | 0 <= i < |steps| :: steps[i].Maximum? ==> steps[i].value != 1
    requires Attached(Run(Init(samplers), steps), c)
    ensures Lossless(Run(Init(samplers), steps).samplers[c])
  {
    assert NoOnes(Init(samplers).samplers);
    RunNoOnes(Init(samplers), steps);
    AttachedMeansLossless(samplers, steps, c);
    hide Run;
  }

  /** With a maximum of one, a publish leaves exactly the newest batch queued, and the sampler attached. */
  lemma MaximumOneKeepsNewest(s: State, r: nat, e: Event, c: nat)
    requires Inv(s) && s.holder.Free? && r in s.readers && s.readers[r].pc.Slot?
    requires Attached(s, c) && s.samplers[c].key == s.readers[r].key && s.samplers[c].max == 1
    ensures var s' := ThreadStep(s, r, e);
            && s'.samplers[c].list == [s.readers[r].batch]
            && Attached(s', c)
            && s'.readers[r].pc == Reading
  {
    var key := s.readers[r].key;
    var entries := s.nodes[key].entries;
    var keep := Accepting(entries, s.samplers);
    var i :| 0 <= i < |entries| && entries[i].sampler == c;
    FilterMember(entries, keep, entries[i]);
    var rest := Filter(entries, keep);
    var j :| 0 <= j < |rest| && rest[j] == entries[i];
    assert rest[j].sampler == c;
  }

  /** A thread's batches reach only samplers attached under its own address. */
  lemma PublishesToOwnSamplers(s: State, r: nat, e: Event, c: nat)
    requires Inv(s) && r in s.readers && c in s.samplers
    requires ThreadStep(s, r, e).samplers[c].published != s.samplers[c].published
    ensures s.samplers[c].key == s.readers[r].key && Attached(s, c)
    ensures s.nodes[s.samplers[c].key].reader == r
  {
    var key := s.readers[r].key;
    assert Lists(s.nodes[key].entries, c);
    var i :| 0 <= i < |s.nodes[key].entries| && s.nodes[key].entries[i].sampler == c;
    assert EntryOk(key, s.nodes[key].entries[i], s.samplers);
  }

  // ----- what a maximum promises

  predicate Within(s: State, c: nat, max: nat, bound: nat) {
    c in s.samplers && s.samplers[c].max == max && |s.samplers[c].list| <= bound
  }

  predicate Publishes(s: State, step: Step, c: nat) {
    c in s.samplers && c in Next(s, step).samplers
    && |Next(s, step).samplers[c].published| > |s.samplers[c].published|
  }

  lemma ClientWithin(s: State, step: Step, c: nat, max: nat, bound: nat)
    requires !step.Thread? && !(step.Maximum? && step.client == c)
    requires 0 < max <= bound && Within(s, c, max, bound)
    ensures Within(Next(s, step), c, max, bound) && !Publishes(s, step, c)
  {
    hide ThreadStep, Filter, Others;
  }

  lemma StepWithin(s: State, step: Step, c: nat, max: nat, bound: nat)
    requires !(step.Maximum? && step.client == c) && 0 < max <= bound && Within(s, c, max, bound)
    ensures Within(Next(s, step), c, max, bound)
    ensures Publishes(s, step, c) ==> |Next(s, step).samplers[c].list| <= max
  {
    if step.Thread? {
    } else {
      ClientWithin(s, step, c, max, bound);
    }
    hide Next, ThreadStep, Within, Publishes;
  }

  /** What a positive maximum promises, in every run that does not set it again: the queue never grows
      beyond it, or beyond what was queued already, and from the first publish on it is kept. */
  lemma {:induction false} MaximumHolds(s: State, steps: seq<Step>, c: nat)
    requires c in s.samplers && s.samplers[c].max > 0
    requires forall i | 0 <= i < |steps| :: !(steps[i].Maximum? && steps[i].client == c)
    ensures var max, size := s.samplers[c].max, |s.samplers[c].list|;
            && Within(Run(s, steps), c, max, if size > max then size else max)
            && ((exists i :: 0 <= i < |steps| && Publishes(Run(s, steps[..i]), steps[i], c))
                ==> Within(Run(s, steps), c, max, max))
    decreases |steps|
  {
    hide Next, Publishes;
    if steps != [] {
      var n := |steps| - 1;
      var max, size, before := s.samplers[c].max, |s.samplers[c].list|, Run(s, steps[..n]);
      MaximumHolds(s, steps[..n], c);
      StepWithin(before, steps[n], c, max, if size > max then size else max);
      if i :| 0 <= i < |steps| && Publishes(Run(s, steps[..i]), steps[i], c) {
        if i < n {
          assert steps[..n][..i] == steps[..i] && steps[..n][i] == steps[i];
          StepWithin(before, steps[n], c, max, max);
        }
      }
    }
  }

  // ----- what is queued, and what was taken

  /** `xs` is `ys` with some elements left out. */
  predicate Thinned(xs: seq<Batch>, ys: seq<Batch>)
    decreases |ys|
  {
    xs == [] || (ys != [] && (Thinned(xs, ys[..|ys| - 1])
                              || (xs[|xs| - 1] == ys[|ys| - 1] && Thinned(xs[..|xs| - 1], ys[..|ys| - 1]))))
  }

  lemma ThinnedTakes(xs: seq<Batch>, ys: seq<Batch>, y: Batch)
    requires Thinned(xs, ys)
    ensures Thinned(xs + [y], ys + [y])
  {
    assert (xs + [y])[..|xs|] == xs && (ys + [y])[..|ys|] == ys;
  }

  lemma {:induction false} ThinnedSkips(xs: seq<Batch>, ys: seq<Batch>, more: seq<Batch>)
    requires Thinned(xs, ys)
    ensures Thinned(xs, ys + more)
    decreases |more|
  {
    if more == [] {
      assert ys + more == ys;
    } else {
      var n := |more| - 1;
      ThinnedSkips(xs, ys, more[..n]);
      assert (ys + more)[..|ys| + n] == ys + more[..n];
    }
  }

  /** Of all batches given to a sampler since it was last attached, and those it had then, the newest are queued,
      and of the older ones the client took some, in order. */
  predicate Flows(x: Sampler) {
    var all := x.leftover + x.published;
    && |x.list| <= |all|
    && x.list == all[|all| - |x.list|..]
    && Thinned(x.delivered, all[..|all| - |x.list|])
  }

  lemma Overlapped(all: seq<Batch>, list: seq<Batch>, data: Batch, k: nat)
    requires |list| <= |all| && list == all[|all| - |list|..] && k <= |list| + 1
    ensures (list + [data])[|list| + 1 - k..] == (all + [data])[|all| + 1 - k..]
    ensures (all + [data])[..|all| + 1 - k] == all[..|all| - |list|] + (list + [data])[..|list| + 1 - k]
  {
    var before := all[..|all| - |list|];
    assert all + [data] == before + (list + [data]);
  }

  lemma PublishFlows(x: Sampler, data: Batch)
    requires Flows(x)
    ensures Flows(Publish(x, data))
  {
    hide Thinned, Kept, Discarded;
    var all, list := x.leftover + x.published, x.list;
    var list' := Kept(list, x.max, data);
    KeptNewest(list, x.max, data);
    Overlapped(all, list, data, |list'|);
    ThinnedSkips(x.delivered, all[..|all| - |list|], (list + [data])[..|list| + 1 - |list'|]);
    assert x.leftover + (x.published + [data]) == all + [data];
  }

  lemma TakeFlows(x: Sampler)
    requires Flows(x) && x.list != []
    ensures Flows(x.(list := x.list[1..], delivered := x.delivered + [x.list[0]]))
  {
    hide Thinned;
    var all := x.leftover + x.published;
    var n := |all| - |x.list|;
    assert all[n] == x.list[0] && all[..n + 1] == all[..n] + [all[n]];
    ThinnedTakes(x.delivered, all[..n], x.list[0]);
  }

  predicate AllFlow(samplers: map<nat, Sampler>) {
    forall c <- samplers :: Flows(samplers[c])
  }

  lemma EnlistFlows(x: Sampler, id: nat)
    ensures Flows(x.(id := id, leftover := x.list, published := [], delivered := [], dropped := 0, squeezed := 0))
  {
    assert x.list + [] == x.list;
  }

  lemma PublishedFlows(entries: seq<Entry>, samplers: map<nat, Sampler>, data: Batch)
    requires AllFlow(samplers)
    ensures AllFlow(Published(entries, samplers, data))
  {
    hide Flows, Publish, Lists;
    forall c <- samplers ensures Flows(Publish(samplers[c], data)) {
      PublishFlows(samplers[c], data);
    }
  }

  lemma SlotFlows(s: State, key: Key, empty: bool, data: Batch)
    requires AllFlow(s.samplers)
    ensures AllFlow(SetDataSlot(s, key, empty, data).0.samplers)
  {
    hide Published, Filter, Flows, AllFlow, Accepting, Quits;
    if key in s.nodes {
      PublishedFlows(s.nodes[key].entries, s.samplers, if empty then map[] else data);
    }
  }

  lemma ThreadFlows(s: State, r: nat, e: Event)
    requires AllFlow(s.samplers)
    ensures AllFlow(ThreadStep(s, r, e).samplers)
  {
    hide SetDataSlot, Local, Flows, AllFlow;
    if r in s.readers {
      var x := s.readers[r];
      SlotFlows(s, x.key, false, x.batch);
      SlotFlows(s, x.key, true, map[]);
    }
  }

  lemma OneFlows(samplers: map<nat, Sampler>, c: nat, x: Sampler)
    requires AllFlow(samplers) && Flows(x)
    ensures AllFlow(samplers[c := x])
  {
    hide Flows;
  }

  lemma EnlistedFlow(s: State, c: nat)
    requires AllFlow(s.samplers) && c in s.samplers && s.samplers[c].key in s.nodes
    ensures AllFlow(Enlist(s, c).samplers)
  {
    hide AllFlow, Flows;
    var x := s.samplers[c];
    EnlistFlows(x, s.lastId + 1);
    OneFlows(s.samplers, c, x.(id := s.lastId + 1, leftover := x.list, published := [], delivered := [], dropped := 0,
                               squeezed := 0));
  }

  lemma FlagsFlow(x: Sampler, id: nat, max: nat)
    requires Flows(x)
    ensures Flows(x.(id := id)) && Flows(x.(max := max))
  {
  }

  lemma ClientFlows(s: State, step: Step)
    requires AllFlow(s.samplers) && !step.Thread?
    ensures AllFlow(Next(s, step).samplers)
  {
    hide ThreadStep, Flows, Filter, Others, Quits, Enlist, HasId;
    match step {
      case Attach(c) =>
        if c in s.samplers && s.samplers[c].key in s.nodes {
          EnlistedFlow(s, c);
        }
      case Await =>
        if s.holder.Starting? && s.holder.client in s.samplers && s.samplers[s.holder.client].key in s.nodes {
          EnlistedFlow(s.(holder := Free), s.holder.client);
        }
      case Detach(c) =>
        if c in s.samplers {
          FlagsFlow(s.samplers[c], 0, 0);
          OneFlows(s.samplers, c, s.samplers[c].(id := 0));
        }
      case Take(c) =>
        if c in s.samplers && Available(s.samplers[c].list) {
          var x := s.samplers[c];
          TakeFlows(x);
          OneFlows(s.samplers, c, x.(list := x.list[1..], delivered := x.delivered + [x.list[0]]));
        }
      case Maximum(c, value) =>
        if c in s.samplers {
          FlagsFlow(s.samplers[c], 0, value);
          OneFlows(s.samplers, c, s.samplers[c].(max := value));
        }
      case _ =>
    }
  }

  /** In every run, for every sampler, also one that was refused or put out: its queue holds the newest of the
      batches given to it, and what the client took comes from the older ones, in order. */
  lemma {:induction false} QueueHoldsNewest(samplers: map<nat, Sampler>, steps: seq<Step>)
    requires Unused(samplers)
    ensures forall c <- Run(Init(samplers), steps).samplers :: Flows(Run(Init(samplers), steps).samplers[c])
    decreases |steps|
  {
    if steps == [] {
      assert forall c <- samplers :: Flows(samplers[c]);
    } else {
      var before, last := steps[..|steps| - 1], steps[|steps| - 1];
      QueueHoldsNewest(samplers, before);
      var s := Run(Init(samplers), before);
      hide Flows, Next, ThreadStep;
      assert AllFlow(s.samplers);
      if last.Thread? {
        ThreadFlows(s, last.reader, last.event);
        assert Next(s, last) == ThreadStep(s, last.reader, last.event) by {
          ThreadIsNext(s, last.reader, last.event);
        }
      } else {
        ClientFlows(s, last);
      }
      assert AllFlow(Next(s, last).samplers);
    }
  }

  lemma ThreadIsNext(s: State, r: nat, e: Event)
    ensures Next(s, Thread(r, e)) == ThreadStep(s, r, e)
  {
  }

  // ----- node lifecycle

  /** Whenever the mutex is free, a node without samplers has a thread that was told to quit, or one
      that set_data_slot has just refused and that sets the flag with its next step. */
  lemma NodeLifecycle(samplers: map<nat, Sampler>, steps: seq<Step>, key: Key, e: Event)
    requires Unused(samplers)
    requires var s := Run(Init(samplers), steps);
             s.holder.Free? && key in s.nodes && s.nodes[key].entries == []
    ensures var s := Run(Init(samplers), steps);
            var r := s.nodes[key].reader;
            && r in s.readers && s.readers[r].key == key
            && (Quits(s, r) || (s.readers[r].pc.Refused? && Quits(ThreadStep(s, r, e), r)))
  {
    Reachable(samplers, steps);
    hide Run;
    var s := Run(Init(samplers), steps);
    assert EmptyOk(s.nodes[key], s.readers, s.holder);
  }

  /** set_data_slot on a live thread's data works on that thread's own node and returns true exactly
      when some sampler took the batch, hence stays. */
  lemma SlotReportsSurvivors(s: State, r: nat)
    requires Inv(s) && s.holder.Free? && r in s.readers && s.readers[r].pc.Slot?
    ensures var x := s.readers[r];
            var (s', ok) := SetDataSlot(s, x.key, false, x.batch);
            && x.key in s.nodes && s.nodes[x.key].reader == r
            && (ok <==> exists i :: 0 <= i < |s.nodes[x.key].entries| && Takes(s, s.nodes[x.key].entries[i]))
            && (forall i | 0 <= i < |s.nodes[x.key].entries| ::
                  s.nodes[x.key].entries[i] in s'.nodes[x.key].entries <==> Takes(s, s.nodes[x.key].entries[i]))
  {
    var x := s.readers[r];
    var entries := s.nodes[x.key].entries;
    var keep := Accepting(entries, s.samplers);
    var rest := Filter(entries, keep);
    assert EntriesOk(x.key, entries, s.samplers);
    forall i | 0 <= i < |entries|
      ensures entries[i] in rest <==> Takes(s, entries[i])
    {
      assert EntryOk(x.key, entries[i], s.samplers);
      FilterMember(entries, keep, entries[i]);
    }
    if rest != [] {
      FilterMember(entries, keep, rest[0]);
      var i :| 0 <= i < |entries| && entries[i] == rest[0];
    }
  }

  predicate Takes(s: State, e: Entry) {
    e.sampler in s.samplers && Accepts(s.samplers[e.sampler].list, s.samplers[e.sampler].max)
  }

  // ----- quitting

  lemma ThreadKeepsQuit(s: State, r': nat, e: Event, r: nat)
    requires Inv(s) && Quits(s, r)
    ensures Quits(ThreadStep(s, r', e), r)
    ensures r' != r ==> ThreadStep(s, r', e).readers[r] == s.readers[r]
  {
    hide Local, SamplersOk, EntriesOk, EmptyOk, Filter, Published, ReaderOk;
    if r' == r {
      LocalKeepsReader(s.readers[r], e);
    }
  }

  lemma ClientKeepsQuit(s: State, step: Step, r: nat)
    requires Inv(s) && Quits(s, r) && !step.Thread?
    ensures var s' := Next(s, step);
            Quits(s', r) && s'.readers[r].late == s.readers[r].late && s'.readers[r].finals == s.readers[r].finals
  {
    hide SamplersOk, EntriesOk, EmptyOk, ReaderOk, Filter;
  }

  lemma NextKeepsQuit(s: State, step: Step, r: nat)
    requires Inv(s) && Quits(s, r)
    ensures Quits(Next(s, step), r)
    ensures !(step.Thread? && step.reader == r) ==>
              && Next(s, step).readers[r].late == s.readers[r].late
              && Next(s, step).readers[r].finals == s.readers[r].finals
  {
    hide ThreadStep, Inv;
    if step.Thread? {
      ThreadKeepsQuit(s, step.reader, step.event, r);
    } else {
      ClientKeepsQuit(s, step, r);
    }
  }

  predicate BeginsData(s: State, step: Step, r: nat) {
    step.Thread? && step.reader == r && r in s.readers && s.readers[r].pc.Call? && Next(s, step).readers[r].pc.Slot?
  }

  predicate BeginsFinal(s: State, step: Step, r: nat) {
    step.Thread? && step.reader == r && r in s.readers && s.readers[r].pc.FinalCall?
      && Next(s, step).readers[r].pc.FinalSlot?
  }

  /** How many data callbacks, and how many final ones, a thread begins during a run. */
  function Callbacks(s: State, steps: seq<Step>, r: nat): (nat, nat)
    decreases |steps|
  {
    if steps == [] then (0, 0) else
    var before, last := Run(s, steps[..|steps| - 1]), steps[|steps| - 1];
    var (data, final) := Callbacks(s, steps[..|steps| - 1], r);
    (data + (if BeginsData(before, last, r) then 1 else 0), final + (if BeginsFinal(before, last, r) then 1 else 0))
  }

  predicate Counted(x: Reader, y: Reader) {
    && y.late == x.late + (if x.quit && x.pc.Call? && y.pc.Slot? then 1 else 0)
    && y.finals == x.finals + (if x.pc.FinalCall? && y.pc.FinalSlot? then 1 else 0)
  }

  lemma LoopCounts(x: Reader, e: Event)
    requires InLoop(x.pc)
    ensures Counted(x, Loop(x, e))
  {
  }

  lemma EdgeCounts(x: Reader, e: Event)
    requires !InLoop(x.pc)
    ensures Counted(x, Edge(x, e))
  {
  }

  lemma LocalCounts(x: Reader, e: Event)
    ensures Counted(x, Local(x, e))
  {
    hide Loop, Edge, Counted;
    if InLoop(x.pc) {
      LoopCounts(x, e);
    } else {
      EdgeCounts(x, e);
    }
  }

  lemma ThreadCounts(s: State, r: nat, e: Event)
    requires Quits(s, r)
    ensures r in ThreadStep(s, r, e).readers && Counted(s.readers[r], ThreadStep(s, r, e).readers[r])
  {
    LocalCounts(s.readers[r], e);
    hide Local, SetDataSlot;
  }

  lemma StepCounts(s: State, step: Step, r: nat)
    requires Inv(s) && Quits(s, r)
    ensures Quits(Next(s, step), r)
    ensures Next(s, step).readers[r].late == s.readers[r].late + (if BeginsData(s, step, r) then 1 else 0)
    ensures Next(s, step).readers[r].finals == s.readers[r].finals + (if BeginsFinal(s, step, r) then 1 else 0)
  {
    hide Inv, ThreadStep;
    NextKeepsQuit(s, step, r);
    if step.Thread? && step.reader == r {
      ThreadCounts(s, r, step.event);
    } else {
      hide Next;
    }
  }

  lemma {:induction false} RunCounts(s: State, steps: seq<Step>, r: nat)
    requires Inv(s) && Quits(s, r)
    ensures Inv(Run(s, steps)) && Quits(Run(s, steps), r)
    ensures Run(s, steps).readers[r].late == s.readers[r].late + Callbacks(s, steps, r).0
    ensures Run(s, steps).readers[r].finals == s.readers[r].finals + Callbacks(s, steps, r).1
    decreases |steps|
  {
    hide Inv, Next, BeginsData, BeginsFinal;
    if steps != [] {
      var init, last := steps[..|steps| - 1], steps[|steps| - 1];
      RunCounts(s, init, r);
      NextInv(Run(s, init), last);
      StepCounts(Run(s, init), last, r);
    }
  }

  /** Bounded delivery after quit: from any reachable state in which a thread's quit flag is set, in
      every continuation, the flag stays set and the thread begins at most one more data callback
      and at most one final, empty one. */
  lemma BoundedAfterQuit(samplers: map<nat, Sampler>, past: seq<Step>, steps: seq<Step>, r: nat)
    requires Unused(samplers) && Quits(Run(Init(samplers), past), r)
    ensures var s := Run(Init(samplers), past);
            && Quits(Run(s, steps), r)
            && Callbacks(s, steps, r).0 <= 1
            && Callbacks(s, steps, r).1 <= 1
  {
    var s := Run(Init(samplers), past);
    Reachable(samplers, past);
    RunCounts(s, steps, r);
    var x := Run(s, steps).readers[r];
    assert ReaderOk(x);
  }

  // ----- what overflow costs for good

  /** A sampler that a full queue has put out of its node: it still counts as attached. */
  predicate Evicted(s: State, c: nat) {
    c in s.samplers && s.samplers[c].id != 0 && !Attached(s, c)
  }

  lemma ServedStillEvicted(s: State, key: Key, data: Batch, c: nat)
    requires Inv(s) && Evicted(s, c) && key in s.nodes
    ensures Evicted(Serve(s, key, data), c)
    ensures Serve(s, key, data).samplers[c].published == s.samplers[c].published
  {
    var entries := s.nodes[key].entries;
    var keep := Accepting(entries, s.samplers);
    forall i | 0 <= i < |Filter(entries, keep)| ensures Filter(entries, keep)[i] in entries {
      FilterMember(entries, keep, Filter(entries, keep)[i]);
    }
  }

  /** A sampler that can be detached is still listed. */
  lemma DetachedWasAttached(s: State, c: nat)
    requires Inv(s) && DetachStep(s, c) != s
    ensures Attached(s, c)
  {
    hide Filter, Others, NodesOk, EmptyOk;
    var x := s.samplers[c];
    var entries := s.nodes[x.key].entries;
    var i :| 0 <= i < |entries| && entries[i].id == x.id;
    assert EntriesOk(x.key, entries, s.samplers);
    assert EntryOk(x.key, entries[i], s.samplers);
    assert entries[i].sampler == c;
  }

  lemma FilterLists(entries: seq<Entry>, keep: set<Entry>, c: nat)
    ensures Lists(Filter(entries, keep), c) ==> Lists(entries, c)
  {
    if Lists(Filter(entries, keep), c) {
      var i :| 0 <= i < |Filter(entries, keep)| && Filter(entries, keep)[i].sampler == c;
      FilterMember(entries, keep, Filter(entries, keep)[i]);
    }
  }

  lemma DetachStillEvicted(s: State, c': nat, c: nat)
    requires Inv(s) && Evicted(s, c)
    ensures Evicted(DetachStep(s, c'), c)
    ensures DetachStep(s, c').samplers[c].published == s.samplers[c].published
  {
    hide Inv, Filter, Others, Lists;
    if DetachStep(s, c') != s {
      DetachedWasAttached(s, c');
      var x := s.samplers[c'];
      var entries := s.nodes[x.key].entries;
      FilterLists(entries, Others(entries, x.id), c);
    }
  }

  lemma ThreadStillEvicted(s: State, r: nat, e: Event, c: nat)
    requires Inv(s) && Evicted(s, c)
    ensures Evicted(ThreadStep(s, r, e), c)
    ensures ThreadStep(s, r, e).samplers[c].published == s.samplers[c].published
  {
    if r in s.readers && s.readers[r].key in s.nodes {
      ServedStillEvicted(s, s.readers[r].key, if s.readers[r].pc.Slot? then s.readers[r].batch else map[], c);
      hide Serve, Local, Inv;
    }
  }

  lemma EnlistStillEvicted(s: State, c': nat, c: nat)
    requires Evicted(s, c) && c' in s.samplers && s.samplers[c'].key in s.nodes && s.samplers[c'].id == 0
    ensures Evicted(Enlist(s, c'), c)
    ensures Enlist(s, c').samplers[c].published == s.samplers[c].published
  {
  }

  lemma AttachStillEvicted(s: State, c': nat, c: nat)
    requires Evicted(s, c)
    ensures Evicted(AttachStep(s, c'), c)
    ensures AttachStep(s, c').samplers[c].published == s.samplers[c].published
  {
    hide Enlist;
    if c' in s.samplers && s.samplers[c'].key in s.nodes && s.samplers[c'].id == 0 {
      EnlistStillEvicted(s, c', c);
    }
  }

  lemma AwaitStillEvicted(s: State, c: nat)
    requires Inv(s) && Evicted(s, c)
    ensures Evicted(AwaitStep(s), c)
    ensures AwaitStep(s).samplers[c].published == s.samplers[c].published
  {
    hide Enlist, SamplersOk, NodesOk, EntriesOk, EmptyOk;
    if s.holder.Starting? {
      EnlistStillEvicted(s.(holder := Free), s.holder.client, c);
    }
  }

  /** Removing a node, taking a batch and setting a maximum list nobody. */
  lemma OthersStillEvicted(s: State, step: Step, c: nat)
    requires Evicted(s, c) && (step.Joined? || step.Take? || step.Maximum?)
    ensures Evicted(Next(s, step), c)
    ensures Next(s, step).samplers[c].published == s.samplers[c].published
  {
    hide ThreadStep, AttachStep, AwaitStep, DetachStep, Lists;
  }

  lemma EvictedStep(s: State, step: Step, c: nat)
    requires Inv(s) && Evicted(s, c)
    ensures Evicted(Next(s, step), c)
    ensures Next(s, step).samplers[c].published == s.samplers[c].published
  {
    hide Inv, Evicted, ThreadStep, AttachStep, AwaitStep, JoinedStep, DetachStep, TakeStep, MaximumStep;
    match step {
      case Thread(r, e) => ThreadStillEvicted(s, r, e, c);
      case Attach(c') => AttachStillEvicted(s, c', c);
      case Await => AwaitStillEvicted(s, c);
      case Detach(c') => DetachStillEvicted(s, c', c);
      case _ => OthersStillEvicted(s, step, c);
    }
  }

  /** Eviction is for good: whatever happens later, the sampler is never attached again, keeps its
      old id, so that attaching it fails, and is never given another batch. */
  lemma {:induction false} EvictedForever(s: State, steps: seq<Step>, c: nat)
    requires Inv(s) && Evicted(s, c)
    ensures Inv(Run(s, steps)) && Evicted(Run(s, steps), c)
    ensures Run(s, steps).samplers[c].published == s.samplers[c].published
    ensures AttachStep(Run(s, steps), c) == Run(s, steps)
    decreases |steps|
  {
    hide Inv, Next;
    if steps != [] {
      EvictedForever(s, steps[..|steps| - 1], c);
      NextInv(Run(s, steps[..|steps| - 1]), steps[|steps| - 1]);
      EvictedStep(Run(s, steps[..|steps| - 1]), steps[|steps| - 1], c);
    }
  }

  /** A node without samplers whose thread quits, and that no client is about to fill or remove. */
  predicate Dead(s: State, key: Key) {
    && key in s.nodes && s.nodes[key].entries == [] && Quits(s, s.nodes[key].reader)
    && !Busy(s.holder, s.nodes[key].reader)
  }

  /** A client holds the mutex and waits for this thread. */
  predicate Busy(holder: Holder, r: nat) {
    (holder.Starting? || holder.Joining?) && holder.reader == r
  }

  lemma DeadThread(s: State, r: nat, e: Event, key: Key)
    requires Inv(s) && Dead(s, key)
    ensures key in ThreadStep(s, r, e).nodes && ThreadStep(s, r, e).nodes[key] == s.nodes[key]
    ensures ThreadStep(s, r, e).holder == s.holder
  {
    hide Local;
    if r in s.readers {
      assert Filter(s.nodes[key].entries, Accepting(s.nodes[key].entries, s.samplers)) == [];
      hide Filter;
    }
  }

  lemma DeadClient(s: State, step: Step, key: Key)
    requires Inv(s) && Dead(s, key) && !step.Thread?
    ensures key in Next(s, step).nodes && Next(s, step).nodes[key] == s.nodes[key]
    ensures !Busy(Next(s, step).holder, s.nodes[key].reader)
  {
    hide SamplersOk, EntriesOk, ReaderOk, Filter;
  }

  lemma DeadStep(s: State, step: Step, key: Key)
    requires Inv(s) && Dead(s, key)
    ensures Dead(Next(s, step), key) && Next(s, step).nodes[key] == s.nodes[key]
  {
    NextKeepsQuit(s, step, s.nodes[key].reader);
    if step.Thread? {
      DeadThread(s, step.reader, step.event, key);
    } else {
      DeadClient(s, step, key);
    }
    hide Next, ThreadStep, Inv;
  }

  /** A node emptied by overflow blocks its address for good: it is never removed, and no sampler
      for that address can be attached again. */
  lemma {:induction false} DeadForever(s: State, steps: seq<Step>, key: Key, c: nat)
    requires Inv(s) && Dead(s, key)
    ensures Inv(Run(s, steps)) && Dead(Run(s, steps), key)
    ensures var s' := Run(s, steps); c in s'.samplers && s'.samplers[c].key == key ==> AttachStep(s', c) == s'
    decreases |steps|
  {
    hide Inv, Next;
    if steps != [] {
      DeadForever(s, steps[..|steps| - 1], key, c);
      NextInv(Run(s, steps[..|steps| - 1]), steps[|steps| - 1]);
      DeadStep(Run(s, steps[..|steps| - 1]), steps[|steps| - 1], key);
    }
  }
}
