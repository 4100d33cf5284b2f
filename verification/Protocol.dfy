/** The sampler protocol as a step system: reader threads with explicit program counters, clients that
    attach, detach, drain and resize, and a manager mutex whose critical sections are single steps.
    A step that is not enabled changes nothing, so a run is any sequence of steps. */
module Protocol {
  import opened Buffering

  /** A sampler object.  `leftover` is its queue when it was last attached; since then `published` was
      given to set_data, `delivered` was taken by the client, and `dropped` batches were thrown away,
      `squeezed` of them by publishes under a maximum of one. */
  datatype Sampler = Sampler(key: Key, id: nat, max: nat, list: seq<Batch>, leftover: seq<Batch>,
                             published: seq<Batch>, delivered: seq<Batch>, dropped: nat, squeezed: nat)

  datatype Entry = Entry(sampler: nat, id: nat)

  datatype Node = Node(reader: nat, entries: seq<Entry>)

  /** Where a reader thread stands. */
  datatype Pc =
    | Connecting | Greeting | Guard | Waiting | Waited | Reading | Read | Export | Call | Slot | Refused | Leaving
    | Unwinding | Quitting | Final | FinalCall | FinalSlot | Stopping | Done | Crashed

  datatype Running = Unknown | Up | Down

  /** A reader thread and the batch it holds; `late` counts data callbacks begun once quit was set, `finals` the
      empty ones. */
  datatype Reader = Reader(key: Key, pc: Pc, batch: Batch, quit: bool, connected: bool, reading: bool, running: Running,
                           fn: bool, late: nat, finals: nat)

  datatype Holder = Free | Starting(client: nat, reader: nat) | Joining(key: Key, reader: nat)

  datatype State = State(lastId: nat, spawned: nat, nodes: map<Key, Node>, readers: map<nat, Reader>,
                         samplers: map<nat, Sampler>, holder: Holder)

  /** What a blocking call of the reader thread comes back with. */
  datatype Event = Data(batch: Batch) | Nothing | Throw

  datatype Step =
    | Thread(reader: nat, event: Event)
    | Attach(client: nat)
    | Await
    | Joined
    | Detach(client: nat)
    | Take(client: nat)
    | Maximum(client: nat, value: nat)

  // ----- the critical section of set_data_slot

  predicate Lists(entries: seq<Entry>, c: nat) {
    exists i :: 0 <= i < |entries| && entries[i].sampler == c
  }

  function Publish(x: Sampler, data: Batch): Sampler {
    x.(list := Kept(x.list, x.max, data),
       published := x.published + [data],
       dropped := x.dropped + Discarded(x.list, x.max),
       squeezed := x.squeezed + (if x.max == 1 then Discarded(x.list, x.max) else 0))
  }

  function Accepting(entries: seq<Entry>, samplers: map<nat, Sampler>): set<Entry> {
    set i | 0 <= i < |entries| && entries[i].sampler in samplers
            && Accepts(samplers[entries[i].sampler].list, samplers[entries[i].sampler].max) :: entries[i]
  }

  function Published(entries: seq<Entry>, samplers: map<nat, Sampler>, data: Batch): map<nat, Sampler> {
    map c | c in samplers :: if Lists(entries, c) then Publish(samplers[c], data) else samplers[c]
  }

  /** Every sampler of a node gets the batch; those that refuse it leave the node. */
  function Serve(s: State, key: Key, data: Batch): State
    requires key in s.nodes
  {
    var node := s.nodes[key];
    s.(nodes := s.nodes[key := Node(node.reader, Filter(node.entries, Accepting(node.entries, s.samplers)))],
       samplers := Published(node.entries, s.samplers, data))
  }

  /** set_data_slot: an empty message is served only once the node's reader is quitting. */
  function SetDataSlot(s: State, key: Key, empty: bool, data: Batch): (r: (State, bool)) {
    if key !in s.nodes || (empty && !Quits(s, s.nodes[key].reader)) then (s, false)
    else
      var s' := Serve(s, key, if empty then map[] else data);
      (s', s'.nodes[key].entries != [])
  }

  predicate Quits(s: State, r: nat) {
    r in s.readers && s.readers[r].quit
  }

  // ----- reader threads

  function SetReader(s: State, r: nat, x: Reader): State {
    s.(readers := s.readers[r := x])
  }

  predicate InLoop(pc: Pc) {
    || pc.Guard? || pc.Waiting? || pc.Waited? || pc.Reading? || pc.Read? || pc.Export? || pc.Call?
    || pc.Refused? || pc.Leaving?
  }

  /** The steps of a reader that touch its own flags only. */
  function Local(x: Reader, e: Event): Reader {
    if InLoop(x.pc) then Loop(x, e) else Edge(x, e)
  }

  /** The thread loop: wait, then read and publish until told to stop.  Calling an empty callback throws. */
  function Loop(x: Reader, e: Event): Reader {
    match x.pc
    case Guard => x.(pc := if x.quit then Unwinding else Waiting)
    case Waiting => x.(pc := if e.Throw? then Unwinding else if e.Data? then Waited else Guard)
    case Waited => if x.quit then x.(pc := Guard) else x.(pc := Reading, reading := true)
    case Reading =>
      if e.Throw? then x.(pc := Unwinding) else if e.Data? then x.(pc := Read, batch := e.batch) else x.(pc := Leaving)
    case Read => x.(pc := if x.quit then Leaving else Export)
    case Export => x.(pc := if x.fn then Call else Reading)
    case Call => if x.fn then x.(pc := Slot, late := x.late + (if x.quit then 1 else 0)) else x.(pc := Unwinding)
    case Refused => x.(pc := Leaving, quit := true)
    case Leaving => x.(pc := Guard, reading := false)
    case _ => x
  }

  /** Before and after the loop.  Outside the thread's try block calling an empty callback is fatal. */
  function Edge(x: Reader, e: Event): Reader {
    match x.pc
    case Connecting => if e.Throw? then x.(pc := Unwinding) else x.(pc := Greeting, connected := true)
    case Greeting => if e.Throw? then x.(pc := Unwinding) else x.(pc := Guard, running := Up)
    case Unwinding => x.(pc := Quitting, connected := false, reading := false)
    case Quitting => x.(pc := Final, quit := true)
    case Final => x.(pc := if x.fn then FinalCall else Stopping)
    case FinalCall => if x.fn then x.(pc := FinalSlot, finals := x.finals + 1) else x.(pc := Crashed)
    case Stopping => x.(pc := Done, running := Down)
    case _ => x
  }

  function ThreadStep(s: State, r: nat, e: Event): State {
    if r !in s.readers then s else
    var x := s.readers[r];
    if x.pc.Slot? then
      if !s.holder.Free? then s else
      var (s', ok) := SetDataSlot(s, x.key, false, x.batch);
      SetReader(s', r, x.(pc := if ok then Reading else Refused))
    else if x.pc.FinalSlot? then
      if !s.holder.Free? then s else
      SetReader(SetDataSlot(s, x.key, true, map[]).0, r, x.(pc := Stopping))
    else SetReader(s, r, Local(x, e))
  }

  // ----- clients

  /** The sampler is listed, takes a fresh id, and starts its account anew. */
  function Enlist(s: State, c: nat): State
    requires c in s.samplers && s.samplers[c].key in s.nodes
  {
    var x := s.samplers[c];
    var node := s.nodes[x.key];
    var id := s.lastId + 1;
    var s' := s.(lastId := id,
                 nodes := s.nodes[x.key := Node(node.reader, node.entries + [Entry(c, id)])],
                 samplers := s.samplers[c := x.(id := id, leftover := x.list, published := [], delivered := [],
                                                dropped := 0, squeezed := 0)]);
    if node.reader in s.readers then SetReader(s', node.reader, s.readers[node.reader].(fn := true)) else s'
  }

  /** A new node with a new thread; the client keeps the mutex while it waits for the thread. */
  function Spawn(s: State, c: nat): State
    requires c in s.samplers
  {
    var key := s.samplers[c].key;
    var x := Reader(key, Connecting, map[], false, false, false, Unknown, false, 0, 0);
    s.(spawned := s.spawned + 1, nodes := s.nodes[key := Node(s.spawned, [])],
       readers := s.readers[s.spawned := x], holder := Starting(c, s.spawned))
  }

  function AttachStep(s: State, c: nat): State {
    if c !in s.samplers || s.samplers[c].id != 0 || s.samplers[c].key.port == 0 || !s.holder.Free? then s else
    var key := s.samplers[c].key;
    if key in s.nodes then
      if Quits(s, s.nodes[key].reader) then s else Enlist(s, c)
    else Spawn(s, c)
  }

  /** The attaching client stops waiting for its new thread: it is up, or it is told to quit. */
  function AwaitStep(s: State): State {
    if !s.holder.Starting? then s else
    var c, r := s.holder.client, s.holder.reader;
    if r !in s.readers || c !in s.samplers || s.samplers[c].key !in s.nodes then s else
    if s.readers[r].running.Up? then Enlist(s.(holder := Free), c)
    else SetReader(s, r, s.readers[r].(quit := true)).(holder := Joining(s.readers[r].key, r))
  }

  /** The joined thread is gone and its node with it. */
  function JoinedStep(s: State): State {
    if s.holder.Joining? && s.holder.reader in s.readers && s.readers[s.holder.reader].pc.Done?
    then s.(nodes := s.nodes - {s.holder.key}, holder := Free) else s
  }

  function DetachStep(s: State, c: nat): State {
    if c !in s.samplers || s.samplers[c].id == 0 || !s.holder.Free? then s else
    var x := s.samplers[c];
    if x.key !in s.nodes || !HasId(s.nodes[x.key].entries, x.id) then s else
    var node := s.nodes[x.key];
    var rest := Filter(node.entries, Others(node.entries, x.id));
    var s' := s.(nodes := s.nodes[x.key := Node(node.reader, rest)], samplers := s.samplers[c := x.(id := 0)]);
    if rest == [] && node.reader in s.readers
    then SetReader(s', node.reader, s.readers[node.reader].(fn := false, quit := true))
           .(holder := Joining(x.key, node.reader))
    else s'
  }

  predicate HasId(entries: seq<Entry>, id: nat) {
    exists i :: 0 <= i < |entries| && entries[i].id == id
  }

  function Others(entries: seq<Entry>, id: nat): set<Entry> {
    set i | 0 <= i < |entries| && entries[i].id != id :: entries[i]
  }

  function TakeStep(s: State, c: nat): State {
    if c !in s.samplers || !Available(s.samplers[c].list) then s else
    var x := s.samplers[c];
    s.(samplers := s.samplers[c := x.(list := x.list[1..], delivered := x.delivered + [x.list[0]])])
  }

  function MaximumStep(s: State, c: nat, value: nat): State {
    if c !in s.samplers then s else s.(samplers := s.samplers[c := s.samplers[c].(max := value)])
  }

  function Next(s: State, step: Step): State {
    match step
    case Thread(r, e) => ThreadStep(s, r, e)
    case Attach(c) => AttachStep(s, c)
    case Await => AwaitStep(s)
    case Joined => JoinedStep(s)
    case Detach(c) => DetachStep(s, c)
    case Take(c) => TakeStep(s, c)
    case Maximum(c, value) => MaximumStep(s, c, value)
  }

  function Run(s: State, steps: seq<Step>): State
    decreases |steps|
  {
    if steps == [] then s else Next(Run(s, steps[..|steps| - 1]), steps[|steps| - 1])
  }

  /** The start: no nodes, no threads, and any number of detached samplers. */
  function Init(samplers: map<nat, Sampler>): State {
    State(0, 0, map[], map[], samplers, Free)
  }

  predicate Unused(samplers: map<nat, Sampler>) {
    forall c <- samplers :: samplers[c] == Sampler(samplers[c].key, 0, samplers[c].max, [], [], [], [], 0, 0)
  }
}
