/** Runs that go wrong: a sampler with a maximum of two or more, attached in the ordinary way, and a
    client that does not fetch its batches. */
module ProtocolRuns {
  import opened Buffering
  import opened Protocol
  import opened ProtocolInvariants
  import opened ProtocolTheorems
  import opened ProtocolLosses
  import opened ProtocolJoins

  const QUIET := Thread(0, Nothing)

  /** The sampler in question, beside any others that are not attached. */
  function Beside(others: map<nat, Sampler>, key: Key, max: nat): map<nat, Sampler> {
    others[0 := Sampler(key, 0, max, [], [], [], [], 0, 0)]
  }

  /** The client attaches, the new thread connects and greets, and then waits for data and gets some. */
  function Connect(): seq<Step> {
    [Attach(0), QUIET, QUIET, Await, QUIET, Thread(0, Data(map[])), QUIET]
  }

  /** One batch: it is read, and the data callback hands it to set_data_slot. */
  function PublishOne(data: Batch): seq<Step> {
    [Thread(0, Data(data)), QUIET, QUIET, QUIET, QUIET]
  }

  function PublishAll(batches: seq<Batch>): seq<Step> {
    if batches == [] then [] else
    PublishAll(batches[..|batches| - 1]) + PublishOne(batches[|batches| - 1])
  }

  // ----- the states on the way

  function Held(batches: seq<Batch>): Batch {
    if batches == [] then map[] else batches[|batches| - 1]
  }

  function Serves(key: Key, pc: Pc, held: Batch): Reader {
    Reader(key, pc, held, false, true, true, Up, true, 0, 0)
  }

  /** The sampler is attached and all batches so far are queued. */
  function Serving(others: map<nat, Sampler>, key: Key, max: nat, batches: seq<Batch>, pc: Pc, held: Batch): State {
    State(1, 1, map[key := Node(0, [Entry(0, 1)])], map[0 := Serves(key, pc, held)],
          others[0 := Sampler(key, 1, max, batches, [], batches, [], 0, 0)], Free)
  }

  /** A step of the thread outside set_data_slot touches the thread alone. */
  lemma ThreadAlone(s: State, x: Reader, e: Event)
    requires s.readers == map[0 := x] && !x.pc.Slot? && !x.pc.FinalSlot?
    ensures Next(s, Thread(0, e)) == s.(readers := map[0 := Local(x, e)])
  {
    hide Local;
    assert s.readers[0 := Local(x, e)] == map[0 := Local(x, e)];
  }

  // ----- attaching

  function Coming(others: map<nat, Sampler>, key: Key, max: nat, pc: Pc, connected: bool, running: Running): State {
    State(0, 1, map[key := Node(0, [])],
          map[0 := Reader(key, pc, map[], false, connected, false, running, false, 0, 0)],
          Beside(others, key, max), Starting(0, 0))
  }

  lemma AttachSpawns(others: map<nat, Sampler>, key: Key, max: nat)
    requires key.port != 0
    ensures Next(Init(Beside(others, key, max)), Attach(0)) == Coming(others, key, max, Connecting, false, Unknown)
  {
    var s := Init(Beside(others, key, max));
    assert AttachStep(s, 0) == Spawn(s, 0);
    assert s.nodes[key := Node(0, [])] == map[key := Node(0, [])];
    assert Spawn(s, 0).readers == Coming(others, key, max, Connecting, false, Unknown).readers;
  }

  lemma ThreadComesUp(others: map<nat, Sampler>, key: Key, max: nat)
    ensures Next(Next(Coming(others, key, max, Connecting, false, Unknown), QUIET), QUIET)
            == Coming(others, key, max, Guard, true, Up)
  {
    hide Next;
    var s0 := Coming(others, key, max, Connecting, false, Unknown);
    var s1 := Coming(others, key, max, Greeting, true, Unknown);
    ThreadAlone(s0, s0.readers[0], Nothing);
    ThreadAlone(s1, s1.readers[0], Nothing);
  }

  /** Attached: the thread stands at the head of its loop and nothing was published. */
  function Attended(others: map<nat, Sampler>, key: Key, max: nat): State {
    Serving(others, key, max, [], Guard, map[])
      .(readers := map[0 := Reader(key, Guard, map[], false, true, false, Up, true, 0, 0)])
  }

  lemma AwaitEnlists(others: map<nat, Sampler>, key: Key, max: nat)
    ensures Next(Coming(others, key, max, Guard, true, Up), Await) == Attended(others, key, max)
  {
    var s := Coming(others, key, max, Guard, true, Up);
    var s' := Enlist(s.(holder := Free), 0);
    assert AwaitStep(s) == s';
    assert [] + [Entry(0, 1)] == [Entry(0, 1)];
    assert s'.nodes == Attended(others, key, max).nodes;
    assert s'.samplers == Attended(others, key, max).samplers;
    assert s'.readers == Attended(others, key, max).readers;
  }

  lemma WaitsForData(others: map<nat, Sampler>, key: Key, max: nat)
    ensures Next(Next(Next(Attended(others, key, max), QUIET), Thread(0, Data(map[]))), QUIET)
            == Serving(others, key, max, [], Reading, map[])
  {
    hide Next;
    var s0 := Attended(others, key, max);
    var x := s0.readers[0];
    ThreadAlone(s0, x, Nothing);
    ThreadAlone(s0.(readers := map[0 := x.(pc := Waiting)]), x.(pc := Waiting), Data(map[]));
    ThreadAlone(s0.(readers := map[0 := x.(pc := Waited)]), x.(pc := Waited), Nothing);
  }

  lemma Connects(others: map<nat, Sampler>, key: Key, max: nat)
    requires key.port != 0
    ensures Run(Init(Beside(others, key, max)), Connect()) == Serving(others, key, max, [], Reading, map[])
  {
    hide Next, Run;
    var s := Init(Beside(others, key, max));
    var s3 := Run(s, [Attach(0), QUIET, QUIET, Await]);
    RunFour(s, Attach(0), QUIET, QUIET, Await);
    AttachSpawns(others, key, max);
    ThreadComesUp(others, key, max);
    AwaitEnlists(others, key, max);
    assert Connect() == ([Attach(0), QUIET, QUIET, Await] + [QUIET, Thread(0, Data(map[]))]) + [QUIET];
    RunConcat(s, [Attach(0), QUIET, QUIET, Await], [QUIET, Thread(0, Data(map[]))]);
    RunTwo(s3, QUIET, Thread(0, Data(map[])));
    RunStep(s, [Attach(0), QUIET, QUIET, Await] + [QUIET, Thread(0, Data(map[]))], QUIET);
    WaitsForData(others, key, max);
  }

  // ----- publishing

  lemma Moves(others: map<nat, Sampler>, key: Key, max: nat, batches: seq<Batch>, pc: Pc, held: Batch, e: Event,
          pc': Pc, held': Batch)
    requires !pc.Slot? && !pc.FinalSlot? && Local(Serves(key, pc, held), e) == Serves(key, pc', held')
    ensures Next(Serving(others, key, max, batches, pc, held), Thread(0, e))
            == Serving(others, key, max, batches, pc', held')
  {
    hide Next, Local;
    ThreadAlone(Serving(others, key, max, batches, pc, held), Serves(key, pc, held), e);
  }

  /** The thread reads a batch and comes to set_data_slot with it. */
  lemma ReachesSlot(others: map<nat, Sampler>, key: Key, max: nat, batches: seq<Batch>, held: Batch, data: Batch)
    ensures Run(Serving(others, key, max, batches, Reading, held), [Thread(0, Data(data)), QUIET, QUIET, QUIET])
            == Serving(others, key, max, batches, Slot, data)
  {
    hide Next, Run, Serving;
    RunFour(Serving(others, key, max, batches, Reading, held), Thread(0, Data(data)), QUIET, QUIET, QUIET);
    Moves(others, key, max, batches, Reading, held, Data(data), Read, data);
    Moves(others, key, max, batches, Read, data, Nothing, Export, data);
    Moves(others, key, max, batches, Export, data, Nothing, Call, data);
    Moves(others, key, max, batches, Call, data, Nothing, Slot, data);
  }

  /** As long as the queue has room, the batch is queued and the sampler stays. */
  lemma SlotQueues(others: map<nat, Sampler>, key: Key, max: nat, batches: seq<Batch>, data: Batch)
    requires |batches| < max
    ensures Next(Serving(others, key, max, batches, Slot, data), QUIET)
            == Serving(others, key, max, batches + [data], Reading, data)
  {
    var s := Serving(others, key, max, batches, Slot, data);
    var s' := Serving(others, key, max, batches + [data], Reading, data);
    var entries := [Entry(0, 1)];
    assert entries[0] in Accepting(entries, s.samplers);
    FilterAll(entries, Accepting(entries, s.samplers));
    assert Published(entries, s.samplers, data) == s'.samplers;
    assert Serve(s, key, data).nodes == s'.nodes;
    assert s.readers[0 := s.readers[0].(pc := Reading)] == s'.readers;
  }

  lemma {:induction false} Queues(others: map<nat, Sampler>, key: Key, max: nat, batches: seq<Batch>)
    requires key.port != 0 && |batches| <= max
    ensures Run(Init(Beside(others, key, max)), Connect() + PublishAll(batches))
            == Serving(others, key, max, batches, Reading, Held(batches))
  {
    hide Next, Run;
    var s := Init(Beside(others, key, max));
    Connects(others, key, max);
    if batches == [] {
      assert Connect() + [] == Connect();
    } else {
      var init, last := batches[..|batches| - 1], batches[|batches| - 1];
      Queues(others, key, max, init);
      BeforeLast(s, others, key, max, init, last);
      PublishingEnds(batches);
      RunStep(s, Connect() + PublishAll(init) + [Thread(0, Data(last)), QUIET, QUIET, QUIET], QUIET);
      SlotQueues(others, key, max, init, last);
      assert init + [last] == batches;
    }
  }

  lemma PublishingEnds(batches: seq<Batch>)
    requires batches != []
    ensures Connect() + PublishAll(batches)
            == Connect() + PublishAll(batches[..|batches| - 1])
               + [Thread(0, Data(batches[|batches| - 1])), QUIET, QUIET, QUIET] + [QUIET]
  {
  }

  lemma BeforeLast(s: State, others: map<nat, Sampler>, key: Key, max: nat, init: seq<Batch>, last: Batch)
    requires Run(s, Connect() + PublishAll(init)) == Serving(others, key, max, init, Reading, Held(init))
    ensures Run(s, Connect() + PublishAll(init) + [Thread(0, Data(last)), QUIET, QUIET, QUIET])
            == Serving(others, key, max, init, Slot, last)
  {
    hide Next, Run, Connect, PublishAll;
    RunConcat(s, Connect() + PublishAll(init), [Thread(0, Data(last)), QUIET, QUIET, QUIET]);
    ReachesSlot(others, key, max, init, Held(init), last);
  }

  // ----- overflow by a batch

  /** The full queue has refused: the sampler is out of the node, and the thread is about to quit. */
  function Refusing(others: map<nat, Sampler>, key: Key, max: nat, batches: seq<Batch>, data: Batch): State {
    State(1, 1, map[key := Node(0, [])], map[0 := Serves(key, Refused, data)],
          others[0 := Publish(Sampler(key, 1, max, batches, [], batches, [], 0, 0), data)], Free)
  }

  lemma SlotRefuses(others: map<nat, Sampler>, key: Key, max: nat, batches: seq<Batch>, data: Batch)
    requires |batches| == max >= 2
    ensures Next(Serving(others, key, max, batches, Slot, data), QUIET) == Refusing(others, key, max, batches, data)
    ensures PutsOut(Serving(others, key, max, batches, Slot, data), QUIET, 0)
  {
    hide Publish, Kept;
    var s, s' := Serving(others, key, max, batches, Slot, data), Refusing(others, key, max, batches, data);
    var entries := [Entry(0, 1)];
    assert entries[0].sampler == 0 && Accepting(entries, s.samplers) == {};
    assert Filter(entries, {}) == Filter(entries[1..], {}) == [];
    assert Published(entries, s.samplers, data) == s'.samplers;
    assert Serve(s, key, data).nodes == s'.nodes;
    assert s.readers[0 := s.readers[0].(pc := Refused)] == s'.readers;
  }

  /** With any maximum of two or more, one batch more than fits is refused. */
  lemma RefusedReached(others: map<nat, Sampler>, key: Key, max: nat, batches: seq<Batch>)
    requires key.port != 0 && |batches| == max + 1 && max >= 2 && Unused(others)
    ensures var s := Run(Init(Beside(others, key, max)), Connect() + PublishAll(batches));
            && Inv(s) && Evicted(s, 0) && s == Refusing(others, key, max, batches[..max], batches[max])
  {
    hide Next, Run, Inv, Evicted, Connect, PublishAll, PutsOut, Refusing;
    var s := Init(Beside(others, key, max));
    var init, last := batches[..max], batches[max];
    Queues(others, key, max, init);
    BeforeLast(s, others, key, max, init, last);
    PublishingEnds(batches);
    var steps := Connect() + PublishAll(init) + [Thread(0, Data(last)), QUIET, QUIET, QUIET];
    RunStep(s, steps, QUIET);
    Reachable(Beside(others, key, max), steps);
    Reachable(Beside(others, key, max), steps + [QUIET]);
    SlotRefuses(others, key, max, init, last);
    NowEvicted(Run(s, steps), QUIET, 0);
  }

  lemma NowEvicted(s: State, step: Step, c: nat)
    requires Inv(s) && PutsOut(s, step, c)
    ensures Evicted(Next(s, step), c)
  {
    hide Inv, Next;
    RefusalEvicts(s, step, c);
  }

  lemma NowDead(s: State, step: Step, key: Key)
    requires Inv(s) && Strands(s, step, key)
    ensures Dead(Next(s, step), key)
  {
    hide Inv, Next, Strands, Dead;
    if Dead(s, key) {
      DeadStep(s, step, key);
    } else {
      OverflowStrands(s, step, key);
    }
  }

  /** Overflow is reachable, and for good: one batch more than fits evicts the sampler, and when the
      thread goes on at once it leaves the address dead, whatever comes later. */
  lemma OverflowHappens(others: map<nat, Sampler>, key: Key, max: nat, batches: seq<Batch>, later: seq<Step>)
    requires key.port != 0 && |batches| == max + 1 && max >= 2 && Unused(others)
    ensures var s := Run(Init(Beside(others, key, max)), Connect() + PublishAll(batches) + [QUIET]);
            && Evicted(s, 0) && Dead(s, key)
            && var s' := Run(s, later);
            && Evicted(s', 0) && Dead(s', key)
            && s'.samplers[0].published == s.samplers[0].published
            && AttachStep(s', 0) == s'
  {
    hide Next, Run, Inv, Dead, Evicted, Connect, PublishAll, AttachStep;
    var steps := Connect() + PublishAll(batches);
    RefusedReached(others, key, max, batches);
    var full := Run(Init(Beside(others, key, max)), steps);
    RunStep(Init(Beside(others, key, max)), steps, QUIET);
    NextInv(full, QUIET);
    NowDead(full, QUIET, key);
    EvictedStep(full, QUIET, 0);
    EvictedForever(Next(full, QUIET), later, 0);
    DeadForever(Next(full, QUIET), later, key, 0);
  }

  // ----- an attach in between

  /** A refusal of every sampler does not strand the address by itself: when another one attaches before
      the thread sets quit, the node has a sampler and can still be removed. */
  lemma AttachedInBetween(others: map<nat, Sampler>, key: Key, max: nat, batches: seq<Batch>, c: nat)
    requires key.port != 0 && |batches| == max + 1 && max >= 2
    requires Unused(others) && c in others && c != 0 && others[c].key == key
    ensures var s := Run(Init(Beside(others, key, max)), Connect() + PublishAll(batches) + [Attach(c), QUIET]);
            && Evicted(s, 0) && Attached(s, c) && Quits(s, 0) && !Dead(s, key)
            && key in s.nodes && s.nodes[key] == Node(0, [Entry(c, 2)])
  {
    hide Run, Next, Inv, Evicted, Connect, PublishAll, Refusing;
    var steps := Connect() + PublishAll(batches);
    var s0 := Init(Beside(others, key, max));
    RefusedReached(others, key, max, batches);
    var full := Run(s0, steps);
    assert steps + [Attach(c), QUIET] == (steps + [Attach(c)]) + [QUIET];
    RunStep(s0, steps, Attach(c));
    RunStep(s0, steps + [Attach(c)], QUIET);
    AttachThenQuit(others, key, max, batches[..max], batches[max], c);
    NextInv(full, Attach(c));
    EvictedStep(full, Attach(c), 0);
    EvictedStep(Next(full, Attach(c)), QUIET, 0);
  }

  lemma Attaches(others: map<nat, Sampler>, key: Key, max: nat, batches: seq<Batch>, data: Batch, c: nat)
    requires key.port != 0 && Unused(others) && c in others && c != 0 && others[c].key == key
    ensures var s := Refusing(others, key, max, batches, data);
            var s' := Next(s, Attach(c));
            && s'.nodes == map[key := Node(0, [Entry(c, 2)])] && s'.readers == s.readers && s'.holder == Free
            && c in s'.samplers && s'.samplers[c].key == key
  {
    hide Publish;
    var s := Refusing(others, key, max, batches, data);
    assert s.samplers[c] == others[c] && others[c].id == 0;
    assert AttachStep(s, c) == Enlist(s, c);
    assert [] + [Entry(c, 2)] == [Entry(c, 2)];
    assert s.nodes[key := Node(0, [Entry(c, 2)])] == map[key := Node(0, [Entry(c, 2)])];
    assert s.readers[0 := s.readers[0].(fn := true)] == s.readers;
  }

  lemma AttachThenQuit(others: map<nat, Sampler>, key: Key, max: nat, batches: seq<Batch>, data: Batch, c: nat)
    requires key.port != 0 && Unused(others) && c in others && c != 0 && others[c].key == key
    ensures var s := Next(Next(Refusing(others, key, max, batches, data), Attach(c)), QUIET);
            && Attached(s, c) && Quits(s, 0) && !Dead(s, key)
            && key in s.nodes && s.nodes[key] == Node(0, [Entry(c, 2)])
  {
    hide Next;
    Attaches(others, key, max, batches, data, c);
    var s' := Next(Refusing(others, key, max, batches, data), Attach(c));
    ThreadAlone(s', Serves(key, Refused, data), Nothing);
    assert s'.nodes[key].entries[0].sampler == c;
  }

  // ----- overflow by the final empty batch

  /** The service hangs up: the thread leaves its loop and comes to set_data_slot a last time. */
  function HangUp(): seq<Step> {
    [Thread(0, Throw), QUIET, QUIET, QUIET, QUIET]
  }

  function Leaves(key: Key, pc: Pc, held: Batch, quit: bool, connected: bool, finals: nat): Reader {
    Reader(key, pc, held, quit, connected, connected, Up, true, 0, finals)
  }

  lemma LeavingSteps(key: Key, held: Batch)
    ensures Local(Serves(key, Reading, held), Throw) == Leaves(key, Unwinding, held, false, true, 0)
    ensures Local(Leaves(key, Unwinding, held, false, true, 0), Nothing) == Leaves(key, Quitting, held, false, false, 0)
    ensures Local(Leaves(key, Quitting, held, false, false, 0), Nothing) == Leaves(key, Final, held, true, false, 0)
    ensures Local(Leaves(key, Final, held, true, false, 0), Nothing) == Leaves(key, FinalCall, held, true, false, 0)
    ensures Local(Leaves(key, FinalCall, held, true, false, 0), Nothing) == Leaves(key, FinalSlot, held, true, false, 1)
  {
  }

  /** The state in which the thread stands at its last set_data_slot. */
  function HungUp(others: map<nat, Sampler>, key: Key, max: nat, batches: seq<Batch>, held: Batch): State {
    Serving(others, key, max, batches, Reading, held).(
      readers := map[0 := Leaves(key, FinalSlot, held, true, false, 1)])
  }

  lemma HangsUp(others: map<nat, Sampler>, key: Key, max: nat, batches: seq<Batch>, held: Batch)
    ensures Run(Serving(others, key, max, batches, Reading, held), HangUp()) == HungUp(others, key, max, batches, held)
  {
    hide Next, Run, Local;
    LeavingSteps(key, held);
    var s := Serving(others, key, max, batches, Reading, held);
    var x1, x2 := Leaves(key, Unwinding, held, false, true, 0), Leaves(key, Quitting, held, false, false, 0);
    var x3, x4 := Leaves(key, Final, held, true, false, 0), Leaves(key, FinalCall, held, true, false, 0);
    ThreadAlone(s, s.readers[0], Throw);
    ThreadAlone(s.(readers := map[0 := x1]), x1, Nothing);
    ThreadAlone(s.(readers := map[0 := x2]), x2, Nothing);
    ThreadAlone(s.(readers := map[0 := x3]), x3, Nothing);
    ThreadAlone(s.(readers := map[0 := x4]), x4, Nothing);
    assert HangUp() == [Thread(0, Throw), QUIET, QUIET, QUIET] + [QUIET];
    RunFour(s, Thread(0, Throw), QUIET, QUIET, QUIET);
    RunStep(s, [Thread(0, Throw), QUIET, QUIET, QUIET], QUIET);
  }

  /** A full queue is enough: no batch was refused, but when the service hangs up the final empty batch
      overflows the queue, evicts the sampler and leaves the address dead for good. */
  lemma HangUpStrands(others: map<nat, Sampler>, key: Key, max: nat, batches: seq<Batch>, later: seq<Step>)
    requires key.port != 0 && |batches| == max >= 2 && Unused(others)
    ensures var s := Run(Init(Beside(others, key, max)), Connect() + PublishAll(batches));
            && Attached(s, 0) && Lossless(s.samplers[0]) && s.samplers[0].published == batches
            && var s' := Run(Run(Run(s, HangUp()), [QUIET]), later); Evicted(s', 0) && Dead(s', key)
  {
    hide Next, Run, Inv, Dead, Evicted, Connect, PublishAll, HangUp;
    var s := Init(Beside(others, key, max));
    Queues(others, key, max, batches);
    HangsUp(others, key, max, batches, Held(batches));
    var full := Run(s, Connect() + PublishAll(batches));
    assert full.nodes[key].entries[0].sampler == 0;
    Reachable(Beside(others, key, max), Connect() + PublishAll(batches));
    RunKeepsInv(full, HangUp());
    var last := Run(full, HangUp());
    FinalRefused(others, key, max, batches, Held(batches));
    NowEvicted(last, QUIET, 0);
    NowDead(last, QUIET, key);
    NextInv(last, QUIET);
    RunOne(last, QUIET);
    EvictedForever(Next(last, QUIET), later, 0);
    DeadForever(Next(last, QUIET), later, key, 0);
  }

  lemma FinalRefused(others: map<nat, Sampler>, key: Key, max: nat, batches: seq<Batch>, held: Batch)
    requires |batches| == max >= 2
    ensures var s := HungUp(others, key, max, batches, held); PutsOut(s, QUIET, 0) && Strands(s, QUIET, key)
  {
    assert HungUp(others, key, max, batches, held).nodes[key].entries[0].sampler == 0;
  }

  // ----- a detach that never returns

  /** Detaching the last sampler while its thread is about to take the mutex for set_data_slot: the client
      waits for the thread and the thread for the client, and nobody attaches or detaches any more. */
  lemma DetachDeadlocks(others: map<nat, Sampler>, key: Key, max: nat, data: Batch, later: seq<Step>, c: nat)
    requires key.port != 0 && Unused(others)
    ensures var steps := Connect() + [Thread(0, Data(data)), QUIET, QUIET, QUIET] + [Detach(0)];
            var s := Run(Run(Init(Beside(others, key, max)), steps), later);
            && Deadlocked(s) && s.holder == Joining(key, 0)
            && AttachStep(s, c) == s && DetachStep(s, c) == s
  {
    hide Next, Run, Connect, Deadlocked;
    var s := Init(Beside(others, key, max));
    Queues(others, key, max, []);
    assert PublishAll([]) == [] && Connect() + [] == Connect();
    BeforeLast(s, others, key, max, [], data);
    RunStep(s, Connect() + [Thread(0, Data(data)), QUIET, QUIET, QUIET], Detach(0));
    LastDetach(others, key, max, data);
    var stuck := Next(Serving(others, key, max, [], Slot, data), Detach(0));
    DeadlockForever(stuck, later);
    NothingMoves(Run(stuck, later), c);
  }

  lemma LastDetach(others: map<nat, Sampler>, key: Key, max: nat, data: Batch)
    ensures var s := Next(Serving(others, key, max, [], Slot, data), Detach(0));
            Deadlocked(s) && s.holder == Joining(key, 0)
  {
    var s := Serving(others, key, max, [], Slot, data);
    var entries := [Entry(0, 1)];
    assert entries[0].id == 1 && HasId(entries, 1);
    assert Others(entries, 1) == {};
    assert Filter(entries, {}) == Filter(entries[1..], {}) == [];
  }

  lemma NothingMoves(s: State, c: nat)
    requires !s.holder.Free?
    ensures AttachStep(s, c) == s && DetachStep(s, c) == s
  {
  }
}
