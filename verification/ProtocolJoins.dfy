/** A client that joins a thread holds the mutex while it waits.  When the wait can end, and how. */
module ProtocolJoins {
  import opened Buffering
  import opened Protocol
  import opened ProtocolInvariants
  import opened ProtocolTheorems

  // ----- a thread that can come to its end by itself

  /** Where a thread without a callback is stuck while the mutex is held: it waits for the mutex, or it
      has yet to call the callback it no longer has, which is fatal. */
  predicate Stuck(pc: Pc) {
    pc.Slot? || pc.FinalSlot? || pc.FinalCall? || pc.Crashed?
  }

  predicate Ends(x: Reader) {
    x.quit && !x.fn && !Stuck(x.pc)
  }

  /** The event that takes the thread towards its end: blocking calls fail. */
  function Onward(pc: Pc): Event {
    if pc.Connecting? || pc.Greeting? || pc.Waiting? || pc.Reading? then Throw else Nothing
  }

  function Distance(pc: Pc): nat {
    match pc
    case Done => 0
    case Stopping => 1
    case Final => 2
    case Quitting => 3
    case Unwinding => 4
    case Waited => 6
    case Leaving => 6
    case Export => 6
    case Read => 7
    case Refused => 7
    case _ => 5
  }

  lemma OnwardEnds(x: Reader)
    requires Ends(x) && !x.pc.Done?
    ensures var y := Local(x, Onward(x.pc)); Ends(y) && y.key == x.key && Distance(y.pc) < Distance(x.pc)
  {
  }

  /** The thread's own steps to its end, and where they leave it. */
  function Way(r: nat, x: Reader): seq<Step>
    requires Ends(x)
    decreases Distance(x.pc)
  {
    if x.pc.Done? then [] else
    OnwardEnds(x);
    [Thread(r, Onward(x.pc))] + Way(r, Local(x, Onward(x.pc)))
  }

  function Ended(x: Reader): (y: Reader)
    requires Ends(x)
    ensures y.pc.Done? && y.quit && !y.fn && y.key == x.key
    decreases Distance(x.pc)
  {
    if x.pc.Done? then x else
    OnwardEnds(x);
    Ended(Local(x, Onward(x.pc)))
  }

  lemma {:induction false} WayRuns(s: State, r: nat)
    requires r in s.readers && Ends(s.readers[r])
    ensures Run(s, Way(r, s.readers[r])) == SetReader(s, r, Ended(s.readers[r]))
    decreases Distance(s.readers[r].pc)
  {
    hide Local, Run, Next;
    var x := s.readers[r];
    if x.pc.Done? {
      assert s.readers[r := x] == s.readers;
      NoSteps(s);
    } else {
      OnwardEnds(x);
      var y := Local(x, Onward(x.pc));
      OwnStep(s, r, Onward(x.pc));
      WayRuns(SetReader(s, r, y), r);
      RunConcat(s, [Thread(r, Onward(x.pc))], Way(r, y));
      RunOne(s, Thread(r, Onward(x.pc)));
      assert s.readers[r := y][r := Ended(y)] == s.readers[r := Ended(y)];
    }
  }

  lemma NoSteps(s: State)
    ensures Run(s, []) == s
  {
  }

  lemma OwnStep(s: State, r: nat, e: Event)
    requires r in s.readers && !s.readers[r].pc.Slot? && !s.readers[r].pc.FinalSlot?
    ensures Next(s, Thread(r, e)) == SetReader(s, r, Local(s.readers[r], e))
  {
    hide Local;
  }

  // ----- joining

  /** The joined thread can come to its end. */
  predicate Returns(s: State) {
    s.holder.Joining? && s.holder.reader in s.readers && Ends(s.readers[s.holder.reader])
  }

  /** It does, and the client goes on. */
  function JoinRun(s: State): seq<Step>
    requires Returns(s)
  {
    Way(s.holder.reader, s.readers[s.holder.reader]) + [Joined]
  }

  lemma JoinEnds(s: State)
    requires Returns(s)
    ensures var r := s.holder.reader;
            Run(s, JoinRun(s)) == s.(readers := s.readers[r := Ended(s.readers[r])], nodes := s.nodes - {s.holder.key},
                                     holder := Free)
  {
    hide Run, Way, Ended, Local;
    var r := s.holder.reader;
    WayRuns(s, r);
    RunStep(s, Way(r, s.readers[r]), Joined);
  }

  /** A thread that a client waits for has no callback. */
  predicate Silent(s: State) {
    forall r <- s.readers :: Busy(s.holder, r) ==> !s.readers[r].fn
  }

  lemma LocalKeepsCallback(x: Reader, e: Event)
    ensures Local(x, e).fn == x.fn
  {
  }

  lemma SlotKeepsThreads(s: State, key: Key, empty: bool, data: Batch)
    ensures var s' := SetDataSlot(s, key, empty, data).0; s'.readers == s.readers && s'.holder == s.holder
  {
    hide Filter, Published, Accepting;
  }

  lemma SilentThread(s: State, r: nat, e: Event)
    requires Silent(s)
    ensures Silent(ThreadStep(s, r, e))
  {
    hide Local, SetDataSlot;
    if r in s.readers {
      var x := s.readers[r];
      LocalKeepsCallback(x, e);
      SlotKeepsThreads(s, x.key, false, x.batch);
      SlotKeepsThreads(s, x.key, true, map[]);
    }
  }

  lemma SilentClient(s: State, step: Step)
    requires Inv(s) && Silent(s) && !step.Thread?
    ensures Silent(Next(s, step))
  {
    hide SamplersOk, EntriesOk, EmptyOk, ReaderOk, Filter, Others, ThreadStep;
  }

  lemma {:induction false} AlwaysSilent(samplers: map<nat, Sampler>, steps: seq<Step>)
    requires Unused(samplers)
    ensures Silent(Run(Init(samplers), steps))
    decreases |steps|
  {
    hide Inv, Next, Silent;
    if steps == [] {
      NoneSilent(samplers);
    } else {
      var before, last := steps[..|steps| - 1], steps[|steps| - 1];
      AlwaysSilent(samplers, before);
      Reachable(samplers, before);
      NextSilent(Run(Init(samplers), before), last);
    }
  }

  lemma NoneSilent(samplers: map<nat, Sampler>)
    ensures Silent(Init(samplers))
  {
  }

  lemma NextSilent(s: State, step: Step)
    requires Inv(s) && Silent(s)
    ensures Silent(Next(s, step))
  {
    hide Inv, Silent, ThreadStep;
    if step.Thread? {
      SilentThread(s, step.reader, step.event);
    } else {
      SilentClient(s, step);
    }
  }

  /** A client waits, with the mutex, for a thread that is stuck. */
  predicate Deadlocked(s: State) {
    && s.holder.Joining? && s.holder.reader in s.readers
    && !s.readers[s.holder.reader].fn && Stuck(s.readers[s.holder.reader].pc)
  }

  lemma DeadlockStays(s: State, step: Step)
    requires Deadlocked(s)
    ensures Deadlocked(Next(s, step)) && Next(s, step).holder == s.holder
    ensures Next(s, step).nodes == s.nodes
  {
    hide SetDataSlot, Enlist, Spawn;
  }

  lemma {:induction false} DeadlockForever(s: State, steps: seq<Step>)
    requires Deadlocked(s)
    ensures Deadlocked(Run(s, steps)) && Run(s, steps).holder == s.holder && Run(s, steps).nodes == s.nodes
    decreases |steps|
  {
    hide Deadlocked, Next;
    if steps != [] {
      DeadlockForever(s, steps[..|steps| - 1]);
      DeadlockStays(Run(s, steps[..|steps| - 1]), steps[|steps| - 1]);
    }
  }

  /** When a join ends, exactly: in every reachable state in which a client joins a thread, some
      continuation frees the mutex if and only if the thread is not stuck. */
  lemma JoinReturns(samplers: map<nat, Sampler>, past: seq<Step>)
    requires Unused(samplers) && Run(Init(samplers), past).holder.Joining?
    ensures var s := Run(Init(samplers), past);
            && s.holder.reader in s.readers
            && ((exists steps :: Run(s, steps).holder.Free?) <==> !Stuck(s.readers[s.holder.reader].pc))
  {
    hide Run, Local;
    var s := Run(Init(samplers), past);
    Reachable(samplers, past);
    AlwaysSilent(samplers, past);
    var x := s.readers[s.holder.reader];
    assert Busy(s.holder, s.holder.reader);
    if Stuck(x.pc) {
      forall steps ensures !Run(s, steps).holder.Free? {
        DeadlockForever(s, steps);
      }
    } else {
      JoinEnds(s);
    }
  }
}
