/** What a communication thread does with what it reads, in every interleaving, and how it goes from one phase
    to the next. */
module ProtocolThreads {
  import opened Buffering
  import opened Protocol
  import opened ProtocolInvariants
  import opened ProtocolTheorems

  // ----- everything read is published

  /** The step is the thread's read of a batch. */
  predicate Reads(s: State, step: Step, r: nat) {
    step.Thread? && step.reader == r && step.event.Data? && r in s.readers && s.readers[r].pc.Reading?
  }

  /** The step is the thread's section of set_data_slot for a batch. */
  predicate Hands(s: State, step: Step, r: nat) {
    step.Thread? && step.reader == r && r in s.readers && s.readers[r].pc.Slot? && s.holder.Free?
  }

  function ReadIn(s: State, step: Step, r: nat): seq<Batch> {
    if Reads(s, step, r) then [step.event.batch] else []
  }

  function HandedIn(s: State, step: Step, r: nat): seq<Batch> {
    if Hands(s, step, r) then [s.readers[r].batch] else []
  }

  /** The batches a thread reads during a run, and those it hands to set_data_slot. */
  function Exchanged(s: State, steps: seq<Step>, r: nat): (seq<Batch>, seq<Batch>)
    decreases |steps|
  {
    if steps == [] then ([], []) else
    var before, last := Run(s, steps[..|steps| - 1]), steps[|steps| - 1];
    var (read, handed) := Exchanged(s, steps[..|steps| - 1], r);
    (read + ReadIn(before, last, r), handed + HandedIn(before, last, r))
  }

  /** The batch a thread has read and not yet handed on. */
  function InFlight(x: Reader): seq<Batch> {
    if x.pc.Read? || x.pc.Export? || x.pc.Call? || x.pc.Slot? then [x.batch] else []
  }

  predicate Live(s: State, r: nat) {
    r in s.readers && s.readers[r].fn && !s.readers[r].quit
  }

  /** A thread's own step, away from set_data_slot. */
  predicate Moves(x: Reader, e: Event, y: Reader) {
    && y.fn == x.fn
    && (x.fn && !y.quit ==>
          InFlight(x) + (if x.pc.Reading? && e.Data? then [e.batch] else []) == InFlight(y))
  }

  lemma LoopMoves(x: Reader, e: Event)
    requires InLoop(x.pc) && !x.quit
    ensures Moves(x, e, Loop(x, e))
  {
  }

  lemma EdgeMoves(x: Reader, e: Event)
    requires !InLoop(x.pc) && !x.pc.Slot?
    ensures Moves(x, e, Edge(x, e))
  {
  }

  lemma LocalMoves(x: Reader, e: Event)
    requires !x.pc.Slot? && !x.quit
    ensures Moves(x, e, Local(x, e))
  {
    hide Loop, Edge, Moves;
    if InLoop(x.pc) {
      LoopMoves(x, e);
    } else {
      EdgeMoves(x, e);
    }
  }

  lemma SlotMoves(s: State, r: nat, e: Event)
    requires Live(s, r) && (s.readers[r].pc.Slot? || s.readers[r].pc.FinalSlot?)
    ensures Live(ThreadStep(s, r, e), r)
    ensures var step := Thread(r, e);
            && !Reads(s, step, r)
            && InFlight(s.readers[r]) == HandedIn(s, step, r) + InFlight(ThreadStep(s, r, e).readers[r])
  {
    hide SetDataSlot;
  }

  lemma LocalIsStep(s: State, r: nat, e: Event)
    requires r in s.readers && !s.readers[r].pc.Slot? && !s.readers[r].pc.FinalSlot?
    ensures ThreadStep(s, r, e) == SetReader(s, r, Local(s.readers[r], e))
  {
    hide Local;
  }

  lemma OwnStepMoves(s: State, r: nat, e: Event)
    requires Live(s, r) && r in ThreadStep(s, r, e).readers && !ThreadStep(s, r, e).readers[r].quit
    ensures var s', step := ThreadStep(s, r, e), Thread(r, e);
            && Live(s', r)
            && InFlight(s.readers[r]) + ReadIn(s, step, r) == HandedIn(s, step, r) + InFlight(s'.readers[r])
  {
    hide ThreadStep, Local, InFlight;
    if s.readers[r].pc.Slot? || s.readers[r].pc.FinalSlot? {
      SlotMoves(s, r, e);
      assert InFlight(s.readers[r]) + [] == InFlight(s.readers[r]);
    } else {
      LocalIsStep(s, r, e);
      LocalMoves(s.readers[r], e);
      assert [] + InFlight(Local(s.readers[r], e)) == InFlight(Local(s.readers[r], e));
    }
  }

  /** What another step may change of a thread: its flags. */
  predicate Preserved(x: Reader, y: Reader) {
    y.pc == x.pc && y.batch == x.batch && (x.quit ==> y.quit) && (!y.quit && x.fn ==> y.fn)
  }

  lemma ThreadLeaves(s: State, r': nat, e: Event, r: nat)
    requires r in s.readers && r' != r
    ensures r in ThreadStep(s, r', e).readers && ThreadStep(s, r', e).readers[r] == s.readers[r]
  {
    hide Filter, Published, Accepting, Local;
  }

  lemma EnlistLeaves(s: State, c: nat, r: nat)
    requires r in s.readers && c in s.samplers && s.samplers[c].key in s.nodes
    ensures r in Enlist(s, c).readers && Preserved(s.readers[r], Enlist(s, c).readers[r])
  {
  }

  lemma AttachLeaves(s: State, c: nat, r: nat)
    requires Inv(s) && r in s.readers
    ensures r in AttachStep(s, c).readers && Preserved(s.readers[r], AttachStep(s, c).readers[r])
  {
    hide SamplersOk, EntriesOk, EmptyOk, ReaderOk, Enlist;
    if c in s.samplers && s.samplers[c].key in s.nodes {
      EnlistLeaves(s, c, r);
    }
  }

  lemma AwaitLeaves(s: State, r: nat)
    requires Inv(s) && r in s.readers
    ensures r in AwaitStep(s).readers && Preserved(s.readers[r], AwaitStep(s).readers[r])
  {
    hide SamplersOk, EntriesOk, EmptyOk, NodesOk, Enlist;
    if s.holder.Starting? {
      EnlistLeaves(s.(holder := Free), s.holder.client, r);
    }
  }

  lemma DetachLeaves(s: State, c: nat, r: nat)
    requires r in s.readers
    ensures r in DetachStep(s, c).readers && Preserved(s.readers[r], DetachStep(s, c).readers[r])
  {
    hide Filter, Others, HasId;
  }

  lemma ClientLeaves(s: State, step: Step, r: nat)
    requires Inv(s) && r in s.readers && !step.Thread?
    ensures r in Next(s, step).readers && Preserved(s.readers[r], Next(s, step).readers[r])
  {
    hide Inv, ThreadStep, AttachStep, AwaitStep, DetachStep;
    match step {
      case Attach(c) => AttachLeaves(s, c, r);
      case Await => AwaitLeaves(s, r);
      case Detach(c) => DetachLeaves(s, c, r);
      case _ =>
    }
  }

  lemma OthersLeave(s: State, step: Step, r: nat)
    requires Inv(s) && r in s.readers && !(step.Thread? && step.reader == r)
    ensures r in Next(s, step).readers && Preserved(s.readers[r], Next(s, step).readers[r])
  {
    hide Inv, ThreadStep;
    if step.Thread? {
      ThreadLeaves(s, step.reader, step.event, r);
    } else {
      ClientLeaves(s, step, r);
    }
  }

  lemma StepMoves(s: State, step: Step, r: nat)
    requires Inv(s) && Live(s, r)
    ensures r in Next(s, step).readers
    ensures !Next(s, step).readers[r].quit ==>
              && Live(Next(s, step), r)
              && InFlight(s.readers[r]) + ReadIn(s, step, r)
                 == HandedIn(s, step, r) + InFlight(Next(s, step).readers[r])
  {
    hide Inv, ReadIn, HandedIn, ThreadStep;
    if step.Thread? && step.reader == r {
      StaysListed(s, step, r);
      if !Next(s, step).readers[r].quit {
        OwnStepMoves(s, r, step.event);
      }
    } else {
      OthersLeave(s, step, r);
      NeitherReadsNorHands(s, step, r);
      hide Next;
      var f := InFlight(s.readers[r]);
      assert f + [] == [] + f == f;
    }
  }

  lemma StaysListed(s: State, step: Step, r: nat)
    requires r in s.readers && step.Thread? && step.reader == r
    ensures r in Next(s, step).readers
  {
    hide Filter, Published, Accepting, Local;
  }

  lemma NeitherReadsNorHands(s: State, step: Step, r: nat)
    requires !(step.Thread? && step.reader == r)
    ensures ReadIn(s, step, r) == HandedIn(s, step, r) == []
  {
  }

  lemma Telescoped(f: seq<Batch>, read: seq<Batch>, handed: seq<Batch>, g: seq<Batch>, b: seq<Batch>, h: seq<Batch>,
                   g': seq<Batch>)
    requires f + read == handed + g && g + b == h + g'
    ensures f + (read + b) == (handed + h) + g'
  {
    assert f + (read + b) == (f + read) + b;
    assert (handed + g) + b == handed + (g + b);
    assert handed + (h + g') == (handed + h) + g';
  }

  /** Everything read is published, once and in order: from any reachable state in which a thread has its
      callback, and to any later one in which it has not been told to quit, what it held and read is what it
      handed to set_data_slot, and the one batch it may still hold. */
  lemma {:induction false} EveryReadIsHanded(s: State, steps: seq<Step>, r: nat)
    requires Inv(s) && Live(s, r)
    ensures Inv(Run(s, steps)) && r in Run(s, steps).readers
    ensures !Run(s, steps).readers[r].quit ==>
              var (read, handed) := Exchanged(s, steps, r);
              && Live(Run(s, steps), r)
              && InFlight(s.readers[r]) + read == handed + InFlight(Run(s, steps).readers[r])
    decreases |steps|
  {
    hide Inv, Next, ReadIn, HandedIn, InFlight;
    if steps == [] {
      assert InFlight(s.readers[r]) + [] == [] + InFlight(s.readers[r]);
    } else {
      var init, last := steps[..|steps| - 1], steps[|steps| - 1];
      var before := Run(s, init);
      EveryReadIsHanded(s, init, r);
      NextInv(before, last);
      if before.readers[r].quit {
        NextKeepsQuit(before, last, r);
      } else {
        StepMoves(before, last, r);
        if !Next(before, last).readers[r].quit {
          var (read, handed) := Exchanged(s, init, r);
          Telescoped(InFlight(s.readers[r]), read, handed, InFlight(before.readers[r]),
                     ReadIn(before, last, r), HandedIn(before, last, r), InFlight(Next(before, last).readers[r]));
        }
      }
    }
  }

  /** What handing a batch on does: every sampler attached under the thread's address is given it, refused or
      not, and no other sampler is touched; the thread reads on if and only if some sampler took it. */
  lemma HandedToAll(s: State, step: Step, r: nat, c: nat)
    requires Inv(s) && Hands(s, step, r) && c in s.samplers
    ensures var s', x := Next(s, step), s.readers[r];
            && c in s'.samplers && r in s'.readers && x.key in s.nodes
            && (if Attached(s, c) && s.samplers[c].key == x.key then
                  && s'.samplers[c].published == s.samplers[c].published + [x.batch]
                  && s'.samplers[c].list == Kept(s.samplers[c].list, s.samplers[c].max, x.batch)
                  && s'.samplers[c].delivered == s.samplers[c].delivered
                else s'.samplers[c] == s.samplers[c])
            && s'.readers[r] == x.(pc := if s'.nodes[x.key].entries != [] then Reading else Refused)
  {
    hide SamplersOk, EmptyOk, Filter, Accepting, Kept, Accepts, Discarded, ReaderOk;
    var key := s.readers[r].key;
    assert key in s.nodes;
    if Lists(s.nodes[key].entries, c) {
      var i :| 0 <= i < |s.nodes[key].entries| && s.nodes[key].entries[i].sampler == c;
      assert EntryOk(key, s.nodes[key].entries[i], s.samplers);
    }
  }

  // ----- from one phase to the next

  /** Three of the thread's own steps. */
  function Own(r: nat, a: Event, b: Event, c: Event): seq<Step> {
    [Thread(r, a), Thread(r, b), Thread(r, c)]
  }

  lemma OwnNext(s: State, r: nat, x: Reader, e: Event, y: Reader)
    requires r in s.readers && s.readers[r] == x && !x.pc.Slot? && !x.pc.FinalSlot? && Local(x, e) == y
    ensures Next(s, Thread(r, e)) == SetReader(s, r, y)
  {
    hide Local;
  }

  /** Away from set_data_slot they change that thread alone. */
  lemma OwnRun(s: State, r: nat, a: Event, b: Event, c: Event, x: Reader, y: Reader, z: Reader)
    requires r in s.readers && Local(s.readers[r], a) == x && Local(x, b) == y && Local(y, c) == z
    requires !s.readers[r].pc.Slot? && !s.readers[r].pc.FinalSlot?
    requires !x.pc.Slot? && !x.pc.FinalSlot? && !y.pc.Slot? && !y.pc.FinalSlot?
    ensures Run(s, Own(r, a, b, c)) == SetReader(s, r, z)
  {
    hide Local, Next, Run;
    assert Own(r, a, b, c) == [Thread(r, a), Thread(r, b)] + [Thread(r, c)];
    RunTwo(s, Thread(r, a), Thread(r, b));
    RunStep(s, [Thread(r, a), Thread(r, b)], Thread(r, c));
    var s1, s2 := SetReader(s, r, x), SetReader(s, r, y);
    OwnNext(s, r, s.readers[r], a, x);
    OwnNext(s1, r, x, b, y);
    assert s1.readers[r := y] == s.readers[r := y];
    OwnNext(s2, r, y, c, z);
    assert s2.readers[r := z] == s.readers[r := z];
  }

  lemma TimeOutLocal(x: Reader, a: Event, b: Event)
    requires x.pc.Reading? && !x.quit
    ensures Local(x, Nothing) == x.(pc := Leaving)
    ensures Local(x.(pc := Leaving), a) == x.(pc := Guard, reading := false)
    ensures Local(x.(pc := Guard, reading := false), b) == x.(pc := Waiting, reading := false)
  {
  }

  /** A read that times out sends the thread back to waiting, with nothing published. */
  lemma TimeOutWaits(s: State, r: nat, a: Event, b: Event)
    requires r in s.readers && s.readers[r].pc.Reading? && !s.readers[r].quit
    ensures Run(s, Own(r, Nothing, a, b)) == SetReader(s, r, s.readers[r].(pc := Waiting, reading := false))
  {
    hide Local, Run;
    var x := s.readers[r];
    TimeOutLocal(x, a, b);
    OwnRun(s, r, Nothing, a, b, x.(pc := Leaving), x.(pc := Guard, reading := false),
           x.(pc := Waiting, reading := false));
  }

  lemma WaitLocal(x: Reader, awaited: Batch, a: Event, data: Batch)
    requires x.pc.Waiting? && !x.quit
    ensures Local(x, Data(awaited)) == x.(pc := Waited)
    ensures Local(x.(pc := Waited), a) == x.(pc := Reading, reading := true)
    ensures Local(x.(pc := Reading, reading := true), Data(data)) == x.(pc := Read, reading := true, batch := data)
    ensures Local(x, Nothing) == x.(pc := Guard) && Local(x.(pc := Guard), a) == x
  {
  }

  /** A wait that ends with data drops them and sends the thread on to read; one that times out, to wait again. */
  lemma WaitReads(s: State, r: nat, awaited: Batch, a: Event, data: Batch)
    requires r in s.readers && s.readers[r].pc.Waiting? && !s.readers[r].quit
    ensures Run(s, Own(r, Data(awaited), a, Data(data)))
            == SetReader(s, r, s.readers[r].(pc := Read, reading := true, batch := data))
    ensures Run(s, Own(r, Nothing, a, Nothing)) == SetReader(s, r, s.readers[r].(pc := Guard))
  {
    hide Local, Run;
    var x := s.readers[r];
    WaitLocal(x, awaited, a, data);
    OwnRun(s, r, Data(awaited), a, Data(data), x.(pc := Waited), x.(pc := Reading, reading := true),
           x.(pc := Read, reading := true, batch := data));
    OwnRun(s, r, Nothing, a, Nothing, x.(pc := Guard), x, x.(pc := Guard));
  }

  lemma UnwindLocal(x: Reader, a: Event, b: Event)
    requires x.pc.Connecting? || x.pc.Greeting? || x.pc.Waiting? || x.pc.Reading?
    ensures Local(x, Throw) == x.(pc := Unwinding)
    ensures Local(x.(pc := Unwinding), a) == x.(pc := Quitting, connected := false, reading := false)
    ensures Local(x.(pc := Quitting, connected := false, reading := false), b)
            == x.(pc := Final, connected := false, reading := false, quit := true)
  {
  }

  /** A blocking call that throws, from whatever phase, takes the thread out of its loop: it says that it is no
      longer connected, sets quit, and goes on to its final callback if it has one. */
  lemma ThrowEnds(s: State, r: nat, a: Event, b: Event)
    requires r in s.readers
    requires var pc := s.readers[r].pc; pc.Connecting? || pc.Greeting? || pc.Waiting? || pc.Reading?
    ensures Run(s, Own(r, Throw, a, b))
            == SetReader(s, r, s.readers[r].(pc := Final, connected := false, reading := false, quit := true))
  {
    hide Local, Run;
    var x := s.readers[r];
    UnwindLocal(x, a, b);
    OwnRun(s, r, Throw, a, b, x.(pc := Unwinding), x.(pc := Quitting, connected := false, reading := false),
           x.(pc := Final, connected := false, reading := false, quit := true));
  }

  lemma ConnectLocal(x: Reader)
    requires x.pc.Connecting? && !x.quit
    ensures Local(x, Nothing) == x.(pc := Greeting, connected := true)
    ensures Local(x.(pc := Greeting, connected := true), Nothing) == x.(pc := Guard, connected := true, running := Up)
    ensures Local(x.(pc := Guard, connected := true, running := Up), Nothing)
            == x.(pc := Waiting, connected := true, running := Up)
  {
  }

  /** A new thread that connects says so, and is up once it has been greeted. */
  lemma ConnectsUp(s: State, r: nat)
    requires r in s.readers && s.readers[r].pc.Connecting? && !s.readers[r].quit
    ensures Run(s, Own(r, Nothing, Nothing, Nothing))
            == SetReader(s, r, s.readers[r].(pc := Waiting, connected := true, running := Up))
  {
    hide Local, Run;
    var x := s.readers[r];
    ConnectLocal(x);
    OwnRun(s, r, Nothing, Nothing, Nothing, x.(pc := Greeting, connected := true),
           x.(pc := Guard, connected := true, running := Up), x.(pc := Waiting, connected := true, running := Up));
  }

  lemma QuitLocal(x: Reader, a: Event, b: Event, c: Event)
    requires x.pc.Guard? && x.quit
    ensures Local(x, a) == x.(pc := Unwinding)
    ensures Local(x.(pc := Unwinding), b) == x.(pc := Quitting, connected := false, reading := false)
    ensures Local(x.(pc := Quitting, connected := false, reading := false), c)
            == x.(pc := Final, connected := false, reading := false)
  {
  }

  /** A thread that was told to quit leaves its loop at the next test of the flag. */
  lemma QuitEnds(s: State, r: nat, a: Event, b: Event, c: Event)
    requires r in s.readers && s.readers[r].pc.Guard? && s.readers[r].quit
    ensures Run(s, Own(r, a, b, c)) == SetReader(s, r, s.readers[r].(pc := Final, connected := false, reading := false))
  {
    hide Local, Run;
    var x := s.readers[r];
    QuitLocal(x, a, b, c);
    OwnRun(s, r, a, b, c, x.(pc := Unwinding), x.(pc := Quitting, connected := false, reading := false),
           x.(pc := Final, connected := false, reading := false));
  }

  lemma QuitWaitLocal(x: Reader, data: Batch, a: Event, b: Event)
    requires x.pc.Waiting? && x.quit
    ensures Local(x, Data(data)) == x.(pc := Waited) && Local(x.(pc := Waited), a) == x.(pc := Guard)
    ensures Local(x.(pc := Guard), b) == x.(pc := Unwinding)
  {
  }

  /** One that was told so while it waited does not read any more, even when data come. */
  lemma QuitWhileWaiting(s: State, r: nat, data: Batch, a: Event, b: Event)
    requires r in s.readers && s.readers[r].pc.Waiting? && s.readers[r].quit
    ensures Run(s, Own(r, Data(data), a, b)) == SetReader(s, r, s.readers[r].(pc := Unwinding))
  {
    hide Local, Run;
    var x := s.readers[r];
    QuitWaitLocal(x, data, a, b);
    OwnRun(s, r, Data(data), a, b, x.(pc := Waited), x.(pc := Guard), x.(pc := Unwinding));
  }

  lemma RefusedLocal(x: Reader, a: Event, b: Event, c: Event)
    requires x.pc.Refused?
    ensures Local(x, a) == x.(pc := Leaving, quit := true)
    ensures Local(x.(pc := Leaving, quit := true), b) == x.(pc := Guard, quit := true, reading := false)
    ensures Local(x.(pc := Guard, quit := true, reading := false), c)
            == x.(pc := Unwinding, quit := true, reading := false)
  {
  }

  /** When nobody took its batch a thread tells itself to quit, and leaves its loop still connected. */
  lemma RefusedQuits(s: State, r: nat, a: Event, b: Event, c: Event)
    requires r in s.readers && s.readers[r].pc.Refused?
    ensures Run(s, Own(r, a, b, c)) == SetReader(s, r, s.readers[r].(pc := Unwinding, quit := true, reading := false))
  {
    hide Local, Run;
    var x := s.readers[r];
    RefusedLocal(x, a, b, c);
    OwnRun(s, r, a, b, c, x.(pc := Leaving, quit := true), x.(pc := Guard, quit := true, reading := false),
           x.(pc := Unwinding, quit := true, reading := false));
  }

  lemma FinalLocal(x: Reader, a: Event, b: Event, c: Event)
    requires x.pc.Final?
    ensures x.fn ==> Local(x, a) == x.(pc := FinalCall)
                     && Local(x.(pc := FinalCall), b) == x.(pc := FinalSlot, finals := x.finals + 1)
    ensures !x.fn ==> Local(x, a) == x.(pc := Stopping)
                      && Local(x.(pc := Stopping), b) == x.(pc := Done, running := Down)
                      && Local(x.(pc := Done, running := Down), c) == x.(pc := Done, running := Down)
  {
  }

  lemma FinalSlotStops(s: State, r: nat, x: Reader, e: Event)
    requires r in s.readers && s.readers[r] == x && x.pc.FinalSlot? && s.holder.Free?
    ensures Next(s, Thread(r, e)) == SetReader(SetDataSlot(s, x.key, true, map[]).0, r, x.(pc := Stopping))
  {
    hide SetDataSlot;
  }

  /** The end: with a callback left, one final empty batch goes to set_data_slot, and to nobody else; without one
      the thread is done. */
  lemma FinalEmpty(s: State, r: nat, a: Event, b: Event, c: Event)
    requires r in s.readers && s.readers[r].pc.Final? && s.holder.Free?
    ensures var x := s.readers[r];
            Run(s, Own(r, a, b, c))
            == if x.fn then SetReader(SetDataSlot(SetReader(s, r, x.(pc := FinalSlot, finals := x.finals + 1)),
                                                  x.key, true, map[]).0, r, x.(pc := Stopping, finals := x.finals + 1))
               else SetReader(s, r, x.(pc := Done, running := Down))
  {
    hide Local, Run, SetDataSlot, Next;
    var x := s.readers[r];
    FinalLocal(x, a, b, c);
    if x.fn {
      assert Own(r, a, b, c) == [Thread(r, a), Thread(r, b)] + [Thread(r, c)];
      RunTwo(s, Thread(r, a), Thread(r, b));
      RunStep(s, [Thread(r, a), Thread(r, b)], Thread(r, c));
      var s1, y := SetReader(s, r, x.(pc := FinalCall)), x.(pc := FinalSlot, finals := x.finals + 1);
      OwnNext(s, r, x, a, x.(pc := FinalCall));
      OwnNext(s1, r, x.(pc := FinalCall), b, y);
      assert s1.readers[r := y] == s.readers[r := y];
      FinalSlotStops(SetReader(s, r, y), r, y, c);
    } else {
      OwnRun(s, r, a, b, c, x.(pc := Stopping), x.(pc := Done, running := Down), x.(pc := Done, running := Down));
    }
  }

  // ----- nobody is attached to a thread that has not come up

  /** A thread in its loop has reported that it runs. */
  predicate UpInLoop(x: Reader) {
    InLoop(x.pc) || x.pc.Slot? ==> x.running.Up?
  }

  predicate CameUp(s: State) {
    && (forall r <- s.readers :: UpInLoop(s.readers[r]))
    && (forall key <- s.nodes ::
          s.nodes[key].entries != [] ==>
            s.nodes[key].reader in s.readers && !s.readers[s.nodes[key].reader].running.Unknown?)
  }

  /** A thread never takes back that it came up. */
  predicate StaysUp(x: Reader, y: Reader) {
    UpInLoop(y) && (!x.running.Unknown? ==> !y.running.Unknown?)
  }

  lemma LoopStaysUp(x: Reader, e: Event)
    requires UpInLoop(x) && InLoop(x.pc)
    ensures StaysUp(x, Loop(x, e))
  {
  }

  lemma EdgeStaysUp(x: Reader, e: Event)
    requires UpInLoop(x) && !InLoop(x.pc)
    ensures StaysUp(x, Edge(x, e))
  {
  }

  lemma LocalStaysUp(x: Reader, e: Event)
    requires UpInLoop(x)
    ensures StaysUp(x, Local(x, e))
  {
    hide Loop, Edge, StaysUp, UpInLoop;
    if InLoop(x.pc) {
      LoopStaysUp(x, e);
    } else {
      EdgeStaysUp(x, e);
    }
  }

  lemma OneStaysUp(s: State, r: nat, y: Reader)
    requires CameUp(s) && r in s.readers && StaysUp(s.readers[r], y)
    ensures CameUp(SetReader(s, r, y))
  {
  }

  lemma SlotCameUp(s: State, key: Key, empty: bool, data: Batch)
    requires CameUp(s)
    ensures CameUp(SetDataSlot(s, key, empty, data).0)
    ensures SetDataSlot(s, key, empty, data).0.readers == s.readers
  {
    hide Published, UpInLoop, Accepting;
    if key in s.nodes {
      var entries := s.nodes[key].entries;
      assert entries == [] ==> Filter(entries, Accepting(entries, s.samplers)) == [];
    }
    hide Filter;
  }

  lemma ThreadCameUp(s: State, r: nat, e: Event)
    requires CameUp(s)
    ensures CameUp(ThreadStep(s, r, e))
  {
    hide CameUp, Local, SetDataSlot;
    if r in s.readers {
      var x := s.readers[r];
      ReaderUp(s, r);
      LocalStaysUp(x, e);
      SlotCameUp(s, x.key, false, x.batch);
      SlotCameUp(s, x.key, true, map[]);
      if x.pc.Slot? {
        var (s', ok) := SetDataSlot(s, x.key, false, x.batch);
        OneStaysUp(s', r, x.(pc := if ok then Reading else Refused));
      } else if x.pc.FinalSlot? {
        OneStaysUp(SetDataSlot(s, x.key, true, map[]).0, r, x.(pc := Stopping));
      } else {
        OneStaysUp(s, r, Local(x, e));
      }
    }
  }

  lemma ReaderUp(s: State, r: nat)
    requires CameUp(s) && r in s.readers
    ensures UpInLoop(s.readers[r])
  {
  }

  lemma EnlistCameUp(s: State, c: nat)
    requires CameUp(s) && c in s.samplers && s.samplers[c].key in s.nodes
    requires var r := s.nodes[s.samplers[c].key].reader; r in s.readers && !s.readers[r].running.Unknown?
    ensures CameUp(Enlist(s, c))
  {
  }

  lemma AttachCameUp(s: State, c: nat)
    requires Inv(s) && CameUp(s)
    ensures CameUp(AttachStep(s, c))
  {
    hide Enlist, SamplersOk, EntriesOk, ReaderOk;
    if c in s.samplers && s.holder.Free? && s.samplers[c].key in s.nodes {
      var key := s.samplers[c].key;
      var r := s.nodes[key].reader;
      assert r in s.readers;
      if !Quits(s, r) {
        assert EmptyOk(s.nodes[key], s.readers, s.holder);
        ReaderUp(s, r);
        EnlistCameUp(s, c);
      }
    }
  }

  lemma GivenUp(s: State, r: nat)
    requires CameUp(s) && r in s.readers
    ensures CameUp(SetReader(s, r, s.readers[r].(quit := true)))
  {
    ReaderUp(s, r);
    OneStaysUp(s, r, s.readers[r].(quit := true));
  }

  lemma OtherHolder(s: State, holder: Holder)
    requires CameUp(s)
    ensures CameUp(s.(holder := holder))
  {
  }

  lemma AwaitCameUp(s: State)
    requires Inv(s) && CameUp(s)
    ensures CameUp(AwaitStep(s))
  {
    hide Enlist, SamplersOk, EntriesOk, EmptyOk, NodesOk, CameUp;
    if s.holder.Starting? {
      var c, r := s.holder.client, s.holder.reader;
      assert s.nodes[s.samplers[c].key].reader == r;
      if s.readers[r].running.Up? {
        OtherHolder(s, Free);
        EnlistCameUp(s.(holder := Free), c);
      } else {
        GivenUp(s, r);
        OtherHolder(SetReader(s, r, s.readers[r].(quit := true)), Joining(s.readers[r].key, r));
      }
    }
  }

  lemma DetachCameUp(s: State, c: nat)
    requires CameUp(s)
    ensures CameUp(DetachStep(s, c))
  {
    hide Others;
    if c in s.samplers && s.samplers[c].key in s.nodes {
      var entries := s.nodes[s.samplers[c].key].entries;
      assert entries == [] ==> Filter(entries, Others(entries, s.samplers[c].id)) == [];
    }
    hide Filter, HasId;
  }

  lemma NextCameUp(s: State, step: Step)
    requires Inv(s) && CameUp(s)
    ensures CameUp(Next(s, step))
  {
    hide Inv, ThreadStep, AttachStep, AwaitStep, DetachStep;
    match step {
      case Thread(r, e) => ThreadCameUp(s, r, e);
      case Attach(c) => AttachCameUp(s, c);
      case Await => AwaitCameUp(s);
      case Detach(c) => DetachCameUp(s, c);
      case _ =>
    }
  }

  /** In every run, a sampler is attached only to a thread that has reported that it runs. */
  lemma {:induction false} AttachedCameUp(samplers: map<nat, Sampler>, steps: seq<Step>)
    requires Unused(samplers)
    ensures CameUp(Run(Init(samplers), steps))
    ensures var s := Run(Init(samplers), steps);
            forall c | Attached(s, c) ::
              var r := s.nodes[s.samplers[c].key].reader;
              r in s.readers && !s.readers[r].running.Unknown?
    decreases |steps|
  {
    if steps == [] {
    } else {
      hide Inv, Next, CameUp;
      var before, last := steps[..|steps| - 1], steps[|steps| - 1];
      AttachedCameUp(samplers, before);
      Reachable(samplers, before);
      NextCameUp(Run(Init(samplers), before), last);
      UpMeans(Run(Init(samplers), steps));
    }
  }

  lemma UpMeans(s: State)
    requires CameUp(s)
    ensures forall c | Attached(s, c) ::
              var r := s.nodes[s.samplers[c].key].reader;
              r in s.readers && !s.readers[r].running.Unknown?
  {
  }
}
