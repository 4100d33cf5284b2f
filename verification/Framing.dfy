/** The length-prefixed framing of the Motion service: what a stream of bytes means, what one
    read of the client does with any schedule of socket events, and what one write leaves on the
    wire.  Client.dfy proves that the stateful client does exactly this. */
module Framing {
  import opened Bytes

  const MAXIMUM_MESSAGE_LENGTH := 65535
  const HEADER_SIZE := 4

  /** What one call of the system's recv gives.  A chunk of no bytes is an orderly shutdown. */
  datatype RecvEvent = Chunk(data: seq<byte>) | TimedOut | Interrupted | Failed

  predicate IsData(e: RecvEvent) {
    e.Chunk? && e.data != []
  }

  /** All bytes a schedule of events carries, whatever stands between them. */
  function AllBytes(es: seq<RecvEvent>): seq<byte> {
    if es == [] then [] else (if es[0].Chunk? then es[0].data else []) + AllBytes(es[1..])
  }

  lemma AllBytesFirst(es: seq<RecvEvent>)
    requires es != []
    ensures AllBytes(es) == (if es[0].Chunk? then es[0].data else []) + AllBytes(es[1..])
  {
  }

  lemma NoBytes()
    ensures AllBytes([]) == []
  {
  }

  lemma {:induction false} AllBytesSplit(xs: seq<RecvEvent>, ys: seq<RecvEvent>)
    ensures AllBytes(xs + ys) == AllBytes(xs) + AllBytes(ys)
  {
    hide AllBytes;
    if xs == [] {
      assert xs + ys == ys;
      NoBytes();
    } else {
      AllBytesSplit(xs[1..], ys);
      assert (xs + ys)[1..] == xs[1..] + ys;
      AllBytesFirst(xs);
      AllBytesFirst(xs + ys);
    }
  }

  // ----- frames

  type Payload = m: seq<byte> | 0 < |m| <= MAXIMUM_MESSAGE_LENGTH witness [0]

  function Encode(m: Payload): (bs: seq<byte>)
    ensures |bs| == HEADER_SIZE + |m|
  {
    ToNetworkOrder(|m|) + m
  }

  function EncodeAll(ms: seq<Payload>): (bs: seq<byte>) {
    if ms == [] then [] else Encode(ms[0]) + EncodeAll(ms[1..])
  }

  /** A valid length header stands at the front. */
  predicate HeaderAtFront(bs: seq<byte>) {
    HEADER_SIZE <= |bs| && 0 < FromNetworkOrder(bs[..HEADER_SIZE]) <= MAXIMUM_MESSAGE_LENGTH
  }

  function FrameLength(bs: seq<byte>): nat
    requires HeaderAtFront(bs)
  {
    HEADER_SIZE + FromNetworkOrder(bs[..HEADER_SIZE])
  }

  /** A whole frame stands at the front. */
  predicate FrameAtFront(bs: seq<byte>) {
    HeaderAtFront(bs) && FrameLength(bs) <= |bs|
  }

  lemma EncodeIsFrame(m: Payload, rest: seq<byte>)
    ensures |Encode(m)| == HEADER_SIZE + |m|
    ensures FrameAtFront(Encode(m) + rest)
    ensures FrameLength(Encode(m) + rest) == |Encode(m)|
    ensures (Encode(m) + rest)[HEADER_SIZE..|Encode(m)|] == m
  {
  }

  /** The four header bytes are determined by the length: a frame at the front is an encoding. */
  lemma FrameIsEncode(bs: seq<byte>)
    requires FrameAtFront(bs)
    ensures 0 < |bs[HEADER_SIZE..FrameLength(bs)]| <= MAXIMUM_MESSAGE_LENGTH
    ensures Encode(bs[HEADER_SIZE..FrameLength(bs)]) == bs[..FrameLength(bs)]
  {
    var n := FromNetworkOrder(bs[..HEADER_SIZE]);
    var b0, b1, b2, b3 := bs[0] as int, bs[1] as int, bs[2] as int, bs[3] as int;
    assert n / 0x100 == b0 * 0x1_0000 + b1 * 0x100 + b2 && n % 0x100 == b3;
    assert n / 0x1_0000 == b0 * 0x100 + b1;
    assert n / 0x100_0000 == b0;
    assert ToNetworkOrder(n) == bs[..HEADER_SIZE];
  }

  // ----- one read, for any schedule of events

  /** Receives until `need` bytes are there or an event brings none. */
  function Gather(have: seq<byte>, es: seq<RecvEvent>, need: nat): (r: (seq<byte>, seq<RecvEvent>))
    decreases |es|
  {
    if |have| < need && es != [] && IsData(es[0]) then Gather(have + es[0].data, es[1..], need) else (have, es)
  }

  /** Gathering loses nothing, and it stops short only at an event without data. */
  lemma {:induction false} GatherAccounts(have: seq<byte>, es: seq<RecvEvent>, need: nat)
    ensures var (got, rest) := Gather(have, es, need);
            && |rest| <= |es|
            && rest == es[|es| - |rest|..]
            && got == have + AllBytes(es[..|es| - |rest|])
            && got + AllBytes(rest) == have + AllBytes(es)
            && (|got| < need ==> rest == [] || !IsData(rest[0]))
            && (got == [] ==> rest == es)
    decreases |es|
  {
    hide Gather, AllBytes;
    if |have| < need && es != [] && IsData(es[0]) {
      GatherAccounts(have + es[0].data, es[1..], need);
      GatherContinues(have, es, need);
      FirstBytes(have, es);
      TakenBytes(have, es, |es| - |Gather(have, es, need).1|);
    } else {
      GatherStops(have, es, need);
    }
  }

  lemma GatherContinues(have: seq<byte>, es: seq<RecvEvent>, need: nat)
    requires |have| < need && es != [] && IsData(es[0])
    ensures Gather(have, es, need) == Gather(have + es[0].data, es[1..], need)
  {
  }

  lemma GatherStops(have: seq<byte>, es: seq<RecvEvent>, need: nat)
    requires !(|have| < need && es != [] && IsData(es[0]))
    ensures Gather(have, es, need) == (have, es) && have == have + AllBytes(es[..0])
  {
  }

  lemma FirstBytes(have: seq<byte>, es: seq<RecvEvent>)
    requires es != [] && IsData(es[0])
    ensures have + AllBytes(es) == have + es[0].data + AllBytes(es[1..])
  {
  }

  lemma TakenBytes(have: seq<byte>, es: seq<RecvEvent>, n: nat)
    requires 0 < n <= |es| && IsData(es[0])
    ensures have + es[0].data + AllBytes(es[1..][..n - 1]) == have + AllBytes(es[..n])
  {
    assert es[..n][1..] == es[1..][..n - 1];
  }

  /** How one read ends.  `Broken` is every communication protocol error; its payload is the part
      of the message already copied out. */
  datatype Outcome = Message(payload: seq<byte>) | Idle | HungUp | RecvFailed | Broken(partial: seq<byte>)

  datatype Reading = Reading(outcome: Outcome, next: seq<byte>, events: seq<RecvEvent>)

  /** The recv that brings no data still consumes its event; after the last event the peer is gone. */
  function AfterIdleRecv(es: seq<RecvEvent>): seq<RecvEvent> {
    if es == [] then [] else es[1..]
  }

  function NothingReceived(exceptions: bool, es: seq<RecvEvent>): Outcome {
    if es != [] && es[0].TimedOut? then Idle
    else if es != [] && es[0].Failed? && exceptions then RecvFailed
    else HungUp
  }

  /** Everything one read takes in: first the header, then the frame it announces. */
  function Taken(next: seq<byte>, es: seq<RecvEvent>): (r: (seq<byte>, seq<RecvEvent>)) {
    var (head, rest) := Gather(next, es, HEADER_SIZE);
    if HeaderAtFront(head) then Gather(head, rest, FrameLength(head)) else (head, rest)
  }

  /** The meaning of one read from the buffered bytes `next` and the coming events `es`. */
  function ReadSpec(exceptions: bool, next: seq<byte>, es: seq<RecvEvent>): (r: Reading) {
    var (got, rest) := Taken(next, es);
    if FrameAtFront(got) then
      Reading(Message(got[HEADER_SIZE..FrameLength(got)]), got[FrameLength(got)..], rest)
    else if got == [] then
      Reading(NothingReceived(exceptions, rest), [], AfterIdleRecv(rest))
    else if HeaderAtFront(got) then
      Reading(Broken(got[HEADER_SIZE..]), [], AfterIdleRecv(rest))
    else
      Reading(Broken([]), [], if |got| < HEADER_SIZE then AfterIdleRecv(rest) else rest)
  }

  /** Whether the client is still connected after a read; `closes` says that shutting the socket succeeds. */
  predicate StaysOpen(exceptions: bool, closes: bool, outcome: Outcome) {
    match outcome
    case Message(_) => true
    case Idle => true
    case RecvFailed => true
    case HungUp => !closes
    case Broken(_) => exceptions || !closes
  }

  lemma TakenAccounts(next: seq<byte>, es: seq<RecvEvent>)
    ensures var (got, rest) := Taken(next, es);
            && |rest| <= |es|
            && rest == es[|es| - |rest|..]
            && got == next + AllBytes(es[..|es| - |rest|])
            && got + AllBytes(rest) == next + AllBytes(es)
            && (got == [] ==> rest == es)
            && (|got| < HEADER_SIZE || (HeaderAtFront(got) && !FrameAtFront(got)) ==> rest == [] || !IsData(rest[0]))
  {
    var need := TakenIsGather(next, es);
    GatherAccounts(next, es, need);
    var got := Taken(next, es).0;
    assert |got| < HEADER_SIZE || (HeaderAtFront(got) && !FrameAtFront(got)) ==> |got| < need;
  }

  /** A read takes in what one gathering up to the whole frame would take in. */
  lemma TakenIsGather(next: seq<byte>, es: seq<RecvEvent>) returns (need: nat)
    ensures Taken(next, es) == Gather(next, es, need)
    ensures var got := Taken(next, es).0;
            need == (if HeaderAtFront(got) then FrameLength(got) else HEADER_SIZE)
  {
    var (head, es1) := Gather(next, es, HEADER_SIZE);
    need := if HeaderAtFront(head) then FrameLength(head) else HEADER_SIZE;
    GatherInStages(next, es, HEADER_SIZE, need);
    if HeaderAtFront(head) {
      GatherExtends(head, es1, need);
      assert Taken(next, es).0[..HEADER_SIZE] == head[..HEADER_SIZE];
    }
  }

  lemma {:induction false} GatherExtends(have: seq<byte>, es: seq<RecvEvent>, need: nat)
    ensures have <= Gather(have, es, need).0
    decreases |es|
  {
    if |have| < need && es != [] && IsData(es[0]) {
      GatherExtends(have + es[0].data, es[1..], need);
    }
  }

  /** Every byte of a schedule is in exactly one place: in the message returned, in the buffer kept
      for the next read, or still to come.  A read that breaks has thrown away everything it took in,
      and any other read without a message has taken no byte at all. */
  lemma ReadAccounts(exceptions: bool, next: seq<byte>, es: seq<RecvEvent>)
    ensures var r := ReadSpec(exceptions, next, es);
            && (r.outcome.Message? ==>
                  && 0 < |r.outcome.payload| <= MAXIMUM_MESSAGE_LENGTH
                  && next + AllBytes(es) == Encode(r.outcome.payload) + r.next + AllBytes(r.events))
            && (r.outcome.Broken? ==>
                  && r.next == [] != Taken(next, es).0
                  && next + AllBytes(es) == Taken(next, es).0 + AllBytes(r.events))
            && (r.outcome.Idle? || r.outcome.RecvFailed? || r.outcome.HungUp? ==>
                  next == r.next == [] && AllBytes(r.events) == AllBytes(es))
  {
    hide Taken, Encode, AllBytes, FromNetworkOrder;
    TakenAccounts(next, es);
    var (got, rest) := Taken(next, es);
    if FrameAtFront(got) {
      FrameIsEncode(got);
      var n := FrameLength(got);
      assert next + AllBytes(es) == (got[..n] + got[n..]) + AllBytes(rest);
    } else if rest == [] || !IsData(rest[0]) {
      NoDataSkipped(rest);
    }
  }

  lemma NoDataSkipped(es: seq<RecvEvent>)
    requires es == [] || !IsData(es[0])
    ensures AllBytes(AfterIdleRecv(es)) == AllBytes(es)
  {
  }

  /** Between two points of a stream lie whole frames only. */
  ghost predicate AtBoundary(before: seq<byte>, after: seq<byte>) {
    exists ms: seq<Payload> :: before == EncodeAll(ms) + after
  }

  /** No sequence of frames is the rest of a frame, or begins with an invalid header. */
  lemma NoFrames(bs: seq<byte>, ms: seq<Payload>)
    requires bs != [] && !FrameAtFront(bs)
    ensures EncodeAll(ms) != bs
  {
    if ms != [] {
      EncodeIsFrame(ms[0], EncodeAll(ms[1..]));
    }
  }

  /** What a broken read has thrown away is not a sequence of frames. */
  lemma BrokenIsNoBoundary(exceptions: bool, next: seq<byte>, es: seq<RecvEvent>)
    requires ReadSpec(exceptions, next, es).outcome.Broken?
    ensures var r := ReadSpec(exceptions, next, es);
            r.next == [] && !AtBoundary(next + AllBytes(es), r.next + AllBytes(r.events))
  {
    ReadAccounts(exceptions, next, es);
    BrokenTakesNoFrame(exceptions, next, es);
    hide *;
    var r, got := ReadSpec(exceptions, next, es), Taken(next, es).0;
    forall ms: seq<Payload> ensures next + AllBytes(es) != EncodeAll(ms) + AllBytes(r.events) {
      NoFrames(got, ms);
      SameFront(EncodeAll(ms), got, AllBytes(r.events));
    }
    assert [] + AllBytes(r.events) == AllBytes(r.events);
  }

  lemma BrokenTakesNoFrame(exceptions: bool, next: seq<byte>, es: seq<RecvEvent>)
    requires ReadSpec(exceptions, next, es).outcome.Broken?
    ensures Taken(next, es).0 != [] && !FrameAtFront(Taken(next, es).0)
  {
    hide Taken;
  }

  lemma SameFront(xs: seq<byte>, ys: seq<byte>, tail: seq<byte>)
    ensures xs + tail == ys + tail ==> xs == ys
  {
    if xs + tail == ys + tail {
      assert xs == (xs + tail)[..|xs|] && ys == (ys + tail)[..|ys|];
    }
  }

  /** The bytes that arrive before the first event without data. */
  function Leading(es: seq<RecvEvent>): seq<byte> {
    if es == [] || !IsData(es[0]) then [] else es[0].data + Leading(es[1..])
  }

  /** The bytes at hand run out within a frame, or begin with an invalid header. */
  predicate CutsFrame(next: seq<byte>, es: seq<RecvEvent>) {
    next + Leading(es) != [] && !FrameAtFront(next + Leading(es))
  }

  /** Gathering takes from the front of the bytes at hand, and all of them when they are too few. */
  lemma {:induction false} GatherLeading(have: seq<byte>, es: seq<RecvEvent>, need: nat)
    ensures var got := Gather(have, es, need).0;
            got <= have + Leading(es) && (|got| < need ==> got == have + Leading(es))
    decreases |es|
  {
    if es != [] && IsData(es[0]) {
      assert have + es[0].data + Leading(es[1..]) == have + Leading(es);
      if |have| < need {
        GatherLeading(have + es[0].data, es[1..], need);
      }
    }
  }

  /** Which reads break: those whose bytes at hand cut a frame. */
  lemma BrokenExactly(exceptions: bool, next: seq<byte>, es: seq<RecvEvent>)
    ensures ReadSpec(exceptions, next, es).outcome.Broken? <==> CutsFrame(next, es)
  {
    var need := TakenIsGather(next, es);
    var got, all := Taken(next, es).0, next + Leading(es);
    GatherLeading(next, es, need);
    assert HEADER_SIZE <= |got| ==> got[..HEADER_SIZE] == all[..HEADER_SIZE];
    hide Leading, Gather, Taken;
  }

  /** What such a read has copied out: all that came behind a valid header, and nothing behind another. */
  lemma BrokenCopies(exceptions: bool, next: seq<byte>, es: seq<RecvEvent>)
    requires ReadSpec(exceptions, next, es).outcome.Broken?
    ensures var all := next + Leading(es);
            ReadSpec(exceptions, next, es).outcome.partial
            == if |all| >= 4 && 0 < FromNetworkOrder(all[..4]) <= 65535 then all[4..] else []
  {
    var need := TakenIsGather(next, es);
    var got, all := Taken(next, es).0, next + Leading(es);
    GatherLeading(next, es, need);
    assert HEADER_SIZE <= |got| ==> got[..HEADER_SIZE] == all[..HEADER_SIZE];
    hide Leading, Gather, Taken;
  }

  /** Frame boundary or closed, exactly: after a read the client is disconnected with an empty
      buffer, or connected at a frame boundary, unless the bytes at hand cut a frame and the error
      does not close the client. */
  lemma FrameBoundaryOrClosed(exceptions: bool, closes: bool, next: seq<byte>, es: seq<RecvEvent>)
    ensures var r := ReadSpec(exceptions, next, es);
            && (!StaysOpen(exceptions, closes, r.outcome) ==> r.next == [])
            && (!StaysOpen(exceptions, closes, r.outcome)
                || AtBoundary(next + AllBytes(es), r.next + AllBytes(r.events))
                <==> !(CutsFrame(next, es) && (exceptions || !closes)))
  {
    hide ReadSpec, AllBytes, CutsFrame, AtBoundary;
    BrokenExactly(exceptions, next, es);
    if ReadSpec(exceptions, next, es).outcome.Broken? {
      BrokenIsNoBoundary(exceptions, next, es);
    } else {
      BoundaryUnlessBroken(exceptions, next, es);
    }
  }

  /** The promise fails when the error does not close the client: here a time-out falls within a message
      of five bytes, and the read leaves the client connected in the middle of it. */
  lemma LeftInsideAFrame(exceptions: bool, closes: bool)
    requires exceptions || !closes
    ensures var es := [Chunk([0, 0, 0, 5, 1]), TimedOut, Chunk([2, 3, 4, 5])];
            var r := ReadSpec(exceptions, [], es);
            && r.outcome.Broken? && StaysOpen(exceptions, closes, r.outcome)
            && !AtBoundary([] + AllBytes(es), r.next + AllBytes(r.events))
  {
    var es := [Chunk([0, 0, 0, 5, 1]), TimedOut, Chunk([2, 3, 4, 5])];
    assert es[1..] == [TimedOut, Chunk([2, 3, 4, 5])];
    assert [] + Leading(es) == [0, 0, 0, 5, 1];
    hide AllBytes, AtBoundary;
    FrameBoundaryOrClosed(exceptions, closes, [], es);
    BrokenExactly(exceptions, [], es);
  }

  lemma BoundaryUnlessBroken(exceptions: bool, next: seq<byte>, es: seq<RecvEvent>)
    requires !ReadSpec(exceptions, next, es).outcome.Broken?
    ensures var r := ReadSpec(exceptions, next, es);
            && AtBoundary(next + AllBytes(es), r.next + AllBytes(r.events))
            && (!r.outcome.Message? ==> r.next == [])
  {
    hide ReadSpec;
    ReadAccounts(exceptions, next, es);
    var r := ReadSpec(exceptions, next, es);
    var after := r.next + AllBytes(r.events);
    if r.outcome.Message? {
      var ms: seq<Payload> := [r.outcome.payload];
      assert EncodeAll(ms) == Encode(r.outcome.payload) + EncodeAll(ms[1..]);
      assert next + AllBytes(es) == EncodeAll(ms) + after;
    } else {
      assert next + AllBytes(es) == EncodeAll([]) + after;
    }
  }

  /** The headline case: without exceptions and with a socket that shuts, no schedule of data,
      time-outs and errors can leave the client connected off a frame boundary. */
  lemma NoExceptionsNeverOffBoundary(next: seq<byte>, es: seq<RecvEvent>)
    ensures var r := ReadSpec(false, next, es);
            if StaysOpen(false, true, r.outcome) then AtBoundary(next + AllBytes(es), r.next + AllBytes(r.events))
            else r.next == []
  {
    FrameBoundaryOrClosed(false, true, next, es);
  }

  /** Nothing kept, and an event that brings no data: a time-out leaves the read idle, a failure raises with
      exceptions, and everything else, an orderly shutdown above all, is the end of the connection. */
  lemma NoDataExactly(exceptions: bool, closes: bool, es: seq<RecvEvent>)
    requires es == [] || !es[0].Chunk? || es[0].data == []
    ensures var r := ReadSpec(exceptions, [], es);
            && r.next == [] && r.events == (if es == [] then [] else es[1..])
            && (r.outcome.Idle? <==> es != [] && es[0].TimedOut?)
            && (r.outcome.RecvFailed? <==> es != [] && es[0].Failed? && exceptions)
            && (r.outcome.HungUp? <==> es == [] || es[0].Chunk? || es[0].Interrupted? || (es[0].Failed? && !exceptions))
            && (StaysOpen(exceptions, closes, r.outcome)
                <==> !closes || (es != [] && (es[0].TimedOut? || (es[0].Failed? && exceptions))))
  {
    assert Taken([], es) == ([], es);
  }

  /** One chunk in front, by its own bytes: the first four announce the length, most significant first; a length
      from 1 to 65535 takes that many of the bytes behind it, any other length breaks the read. */
  lemma FirstChunkExactly(exceptions: bool, chunk: seq<byte>, later: seq<RecvEvent>)
    requires |chunk| >= 4
    ensures var n := 0x100_0000 * chunk[0] as int + 0x1_0000 * chunk[1] as int + 0x100 * chunk[2] as int
                     + chunk[3] as int;
            var r := ReadSpec(exceptions, [], [Chunk(chunk)] + later);
            && (0 < n <= 65535 && 4 + n <= |chunk| ==>
                  r == Reading(Message(chunk[4..4 + n]), chunk[4 + n..], later))
            && (!(0 < n <= 65535) ==> r == Reading(Broken([]), [], later))
  {
    var es := [Chunk(chunk)] + later;
    assert es[1..] == later && [] + chunk == chunk;
    assert Gather([], es, HEADER_SIZE) == (chunk, later);
    assert FromNetworkOrder(chunk[..4]) == 0x100_0000 * chunk[0] as int + 0x1_0000 * chunk[1] as int
                                           + 0x100 * chunk[2] as int + chunk[3] as int;
  }

  /** The frame of a message, byte by byte. */
  lemma FrameBytes(m: Payload)
    ensures |m| <= 65535 && Encode(m) == [0, 0, (|m| / 256) as byte, (|m| % 256) as byte] + m
  {
    var n := |m|;
    assert n / 0x100_0000 == 0 && n / 0x1_0000 == 0;
  }

  // ----- successive reads

  /** The messages that `calls` successive reads return. */
  function Delivered(exceptions: bool, next: seq<byte>, es: seq<RecvEvent>, calls: nat): seq<seq<byte>>
    decreases calls
  {
    if calls == 0 then [] else
    var r := ReadSpec(exceptions, next, es);
    (if r.outcome.Message? then [r.outcome.payload] else [])
    + (if r.outcome.Message? || r.outcome.Idle? then Delivered(exceptions, r.next, r.events, calls - 1) else [])
  }

  /** `next` and the bytes to come spell exactly `ms`, however they are cut into chunks, and a
      time-out may fall only between two frames. */
  ghost predicate Carries(next: seq<byte>, es: seq<RecvEvent>, ms: seq<Payload>) {
    next + AllBytes(es) == EncodeAll(ms) && PausesBetween(next, es, ms)
  }

  ghost predicate PausesBetween(next: seq<byte>, es: seq<RecvEvent>, ms: seq<Payload>) {
    forall i | 0 <= i < |es| && !IsData(es[i]) :: es[i].TimedOut? && BetweenFrames(next + AllBytes(es[..i]), ms)
  }

  ghost predicate BetweenFrames(bs: seq<byte>, ms: seq<Payload>)
  {
    exists k :: 0 <= k <= |ms| && bs == EncodeAll(ms[..k])
  }

  function TimeOuts(es: seq<RecvEvent>): nat {
    if es == [] then 0 else (if IsData(es[0]) then 0 else 1) + TimeOuts(es[1..])
  }

  lemma {:induction false} GatherTakesData(have: seq<byte>, es: seq<RecvEvent>, need: nat)
    ensures TimeOuts(Gather(have, es, need).1) == TimeOuts(es)
    decreases |es|
  {
    if |have| < need && es != [] && IsData(es[0]) {
      GatherTakesData(have + es[0].data, es[1..], need);
    }
  }

  /** Gathering towards the first frame of a carried stream cannot stop short of it. */
  lemma GatherReachesFrame(next: seq<byte>, es: seq<RecvEvent>, ms: seq<Payload>, need: nat)
    requires Carries(next, es, ms) && ms != [] && 0 < need <= |Encode(ms[0])|
    ensures var (got, rest) := Gather(next, es, need);
            |got| >= need || (got == [] && rest == es && es != [] && es[0].TimedOut?)
  {
    GatherAccounts(next, es, need);
    var (got, rest) := Gather(next, es, need);
    assert |EncodeAll(ms)| >= |Encode(ms[0])|;
    assert es[..|es|] == es;
    if |got| < need {
      var i := |es| - |rest|;
      assert rest[0] == es[i] && !IsData(es[i]);
      var k :| 0 <= k <= |ms| && next + AllBytes(es[..i]) == EncodeAll(ms[..k]);
      assert k == 0;
    }
  }

  lemma CarriesStep(next: seq<byte>, es: seq<RecvEvent>, ms: seq<Payload>, next': seq<byte>, es': seq<RecvEvent>)
    requires Carries(next, es, ms) && ms != []
    requires |es'| <= |es| && es' == es[|es| - |es'|..]
    requires next + AllBytes(es[..|es| - |es'|]) == Encode(ms[0]) + next'
    ensures Carries(next', es', ms[1..])
  {
    hide AllBytes, EncodeAll, Encode, BetweenFrames;
    var n := |es| - |es'|;
    RestSpelled(next, es, ms, next', n);
    forall i | 0 <= i < |es'| && !IsData(es'[i])
      ensures es'[i].TimedOut? && BetweenFrames(next' + AllBytes(es'[..i]), ms[1..])
    {
      assert es'[i] == es[n + i];
      PauseShifts(next, es, ms, next', n, i);
    }
  }

  lemma RestSpelled(next: seq<byte>, es: seq<RecvEvent>, ms: seq<Payload>, next': seq<byte>, n: nat)
    requires next + AllBytes(es) == EncodeAll(ms) && ms != [] && n <= |es|
    requires next + AllBytes(es[..n]) == Encode(ms[0]) + next'
    ensures next' + AllBytes(es[n..]) == EncodeAll(ms[1..])
  {
    hide AllBytes, EncodeAll, Encode;
    assert es == es[..n] + es[n..];
    AllBytesSplit(es[..n], es[n..]);
    Regrouped(next, AllBytes(es[..n]), Encode(ms[0]), next', AllBytes(es[n..]));
    EncodeAllFirst(ms);
    SameTail(Encode(ms[0]), next' + AllBytes(es[n..]), EncodeAll(ms[1..]));
  }

  lemma EncodeAllFirst(ms: seq<Payload>)
    requires ms != []
    ensures EncodeAll(ms) == Encode(ms[0]) + EncodeAll(ms[1..])
  {
  }

  lemma Regrouped<T>(a: seq<T>, b: seq<T>, c: seq<T>, d: seq<T>, rest: seq<T>)
    requires a + b == c + d
    ensures a + (b + rest) == c + (d + rest)
  {
    assert a + (b + rest) == (a + b) + rest;
    assert c + (d + rest) == (c + d) + rest;
  }

  lemma PauseShifts(next: seq<byte>, es: seq<RecvEvent>, ms: seq<Payload>, next': seq<byte>, n: nat, i: nat)
    requires ms != [] && n + i <= |es| && BetweenFrames(next + AllBytes(es[..n + i]), ms)
    requires next + AllBytes(es[..n]) == Encode(ms[0]) + next'
    ensures BetweenFrames(next' + AllBytes(es[n..][..i]), ms[1..])
  {
    hide AllBytes, Encode, BetweenFrames;
    ShiftedPrefix(next, es, n, i);
    assert (Encode(ms[0]) + next') + AllBytes(es[n..][..i]) == Encode(ms[0]) + (next' + AllBytes(es[n..][..i]));
    BetweenRemaining(next' + AllBytes(es[n..][..i]), ms);
  }

  lemma ShiftedPrefix(next: seq<byte>, es: seq<RecvEvent>, n: nat, i: nat)
    requires n + i <= |es|
    ensures next + AllBytes(es[..n + i]) == (next + AllBytes(es[..n])) + AllBytes(es[n..][..i])
  {
    assert es[..n + i] == es[..n] + es[n..][..i];
    AllBytesSplit(es[..n], es[n..][..i]);
  }

  lemma BetweenRemaining(bs: seq<byte>, ms: seq<Payload>)
    requires ms != [] && BetweenFrames(Encode(ms[0]) + bs, ms)
    ensures BetweenFrames(bs, ms[1..])
  {
    var k :| 0 <= k <= |ms| && Encode(ms[0]) + bs == EncodeAll(ms[..k]);
    assert |Encode(ms[0])| > 0;
    assert k > 0;
    assert ms[..k][0] == ms[0] && ms[..k][1..] == ms[1..][..k - 1];
    SameTail(Encode(ms[0]), bs, EncodeAll(ms[1..][..k - 1]));
  }

  lemma SameTail(xs: seq<byte>, ys: seq<byte>, zs: seq<byte>)
    requires xs + ys == xs + zs
    ensures ys == zs
  {
    assert ys == (xs + ys)[|xs|..];
    assert zs == (xs + zs)[|xs|..];
  }

  /** One read of a carried stream: the first message, whatever the chunks, or an idle time-out. */
  lemma ReadCarried(exceptions: bool, next: seq<byte>, es: seq<RecvEvent>, ms: seq<Payload>)
    requires Carries(next, es, ms) && (ms != [] || es != [])
    ensures var r := ReadSpec(exceptions, next, es);
            || (r.outcome == Idle && Carries(r.next, r.events, ms) && TimeOuts(es) == 1 + TimeOuts(r.events))
            || (ms != [] && r.outcome == Message(ms[0]) && Carries(r.next, r.events, ms[1..])
                && TimeOuts(es) == TimeOuts(r.events))
  {
    GatherAccounts(next, es, HEADER_SIZE);
    if ms == [] {
      assert next == [] && AllBytes(es) == [];
      assert !IsData(es[0]);
      CarriesIdle(es, ms);
    } else {
      EncodeIsFrame(ms[0], EncodeAll(ms[1..]));
      GatherReachesFrame(next, es, ms, HEADER_SIZE);
      if |Gather(next, es, HEADER_SIZE).0| < HEADER_SIZE {
        CarriesIdle(es, ms);
      } else {
        ReadFirstFrame(exceptions, next, es, ms);
      }
    }
  }

  lemma CarriesIdle(es: seq<RecvEvent>, ms: seq<Payload>)
    requires Carries([], es, ms) && es != [] && !IsData(es[0])
    ensures es[0].TimedOut? && Carries([], es[1..], ms)
  {
    assert AllBytes(es) == AllBytes(es[1..]);
    hide EncodeAll, BetweenFrames;
    forall i | 0 <= i < |es[1..]| && !IsData(es[1..][i])
      ensures es[1..][i].TimedOut? && BetweenFrames([] + AllBytes(es[1..][..i]), ms)
    {
      assert es[1..][i] == es[i + 1];
      LaterBytes(es, i);
    }
  }

  lemma LaterBytes(es: seq<RecvEvent>, i: nat)
    requires es != [] && !IsData(es[0]) && i < |es|
    ensures AllBytes(es[..i + 1]) == AllBytes(es[1..][..i])
  {
    assert es[..i + 1][1..] == es[1..][..i];
  }

  lemma ReadFirstFrame(exceptions: bool, next: seq<byte>, es: seq<RecvEvent>, ms: seq<Payload>)
    requires Carries(next, es, ms) && ms != [] && HEADER_SIZE <= |Gather(next, es, HEADER_SIZE).0|
    ensures var r := ReadSpec(exceptions, next, es);
            r.outcome == Message(ms[0]) && Carries(r.next, r.events, ms[1..]) && TimeOuts(es) == TimeOuts(r.events)
  {
    var need := |Encode(ms[0])|;
    var (got, es2) := Gather(next, es, need);
    FirstFrameTaken(next, es, ms);
    GatherAccounts(next, es, need);
    assert got == Encode(ms[0]) + got[need..];
    assert got[HEADER_SIZE..need] == ms[0];
    CarriesStep(next, es, ms, got[need..], es2);
    GatherTakesData(next, es, need);
  }

  /** What a read takes in is then exactly a gathering up to the end of the first frame. */
  lemma FirstFrameTaken(next: seq<byte>, es: seq<RecvEvent>, ms: seq<Payload>)
    requires Carries(next, es, ms) && ms != [] && HEADER_SIZE <= |Gather(next, es, HEADER_SIZE).0|
    ensures var need := |Encode(ms[0])|;
            var got := Taken(next, es).0;
            && Taken(next, es) == Gather(next, es, need)
            && need <= |got| && got[..need] == Encode(ms[0])
            && FrameAtFront(got) && FrameLength(got) == need
  {
    var need := |Encode(ms[0])|;
    var (head, es1) := Gather(next, es, HEADER_SIZE);
    GatherAccounts(next, es, HEADER_SIZE);
    EncodeIsFrame(ms[0], EncodeAll(ms[1..]));
    assert head[..HEADER_SIZE] == (head + AllBytes(es1))[..HEADER_SIZE] == EncodeAll(ms)[..HEADER_SIZE];
    assert FrameLength(head) == need;
    GatherInStages(next, es, HEADER_SIZE, need);
    GatherReachesFrame(next, es, ms, need);
    var (got, es2) := Gather(next, es, need);
    GatherAccounts(next, es, need);
    assert got[..need] == (got + AllBytes(es2))[..need] == EncodeAll(ms)[..need] == Encode(ms[0]);
    assert got[..HEADER_SIZE] == EncodeAll(ms)[..HEADER_SIZE];
  }

  lemma {:induction false} GatherInStages(have: seq<byte>, es: seq<RecvEvent>, first: nat, need: nat)
    requires first <= need
    ensures var (head, es1) := Gather(have, es, first);
            Gather(head, es1, need) == Gather(have, es, need)
    decreases |es|
  {
    if |have| < first && es != [] && IsData(es[0]) {
      GatherInStages(have + es[0].data, es[1..], first, need);
    }
  }

  lemma DeliveredUnfold(exceptions: bool, next: seq<byte>, es: seq<RecvEvent>, calls: nat)
    ensures calls == 0 ==> Delivered(exceptions, next, es, calls) == []
    ensures calls > 0 ==>
              var r := ReadSpec(exceptions, next, es);
              && (r.outcome.Message? ==>
                    Delivered(exceptions, next, es, calls)
                    == [r.outcome.payload] + Delivered(exceptions, r.next, r.events, calls - 1))
              && (r.outcome.Idle? ==>
                    Delivered(exceptions, next, es, calls) == Delivered(exceptions, r.next, r.events, calls - 1))
  {
    if calls > 0 {
      var later := Delivered(exceptions, ReadSpec(exceptions, next, es).next, ReadSpec(exceptions, next, es).events,
                             calls - 1);
      assert [] + later == later;
    }
  }

  lemma NothingToRead(es: seq<RecvEvent>, ms: seq<Payload>)
    ensures |ms| + TimeOuts(es) > 0 ==> ms != [] || es != []
  {
  }

  /** Chunking independence: whatever the chunks, and with time-outs between frames only,
      successive reads return exactly the payloads, in order. */
  lemma {:induction false} ChunkingIndependence(exceptions: bool, next: seq<byte>, es: seq<RecvEvent>, ms: seq<Payload>)
    requires Carries(next, es, ms)
    ensures Delivered(exceptions, next, es, |ms| + TimeOuts(es)) == ms
    decreases |ms| + TimeOuts(es)
  {
    hide ReadSpec, Carries, TimeOuts, Delivered;
    DeliveredUnfold(exceptions, next, es, |ms| + TimeOuts(es));
    if |ms| + TimeOuts(es) > 0 {
      NothingToRead(es, ms);
      ReadCarried(exceptions, next, es, ms);
      var r := ReadSpec(exceptions, next, es);
      if r.outcome.Idle? {
        ChunkingIndependence(exceptions, r.next, r.events, ms);
      } else {
        ChunkingIndependence(exceptions, r.next, r.events, ms[1..]);
        assert [ms[0]] + ms[1..] == ms;
      }
    }
  }

  // ----- one write, for any schedule of send results

  /** What one call of the system's send gives: it accepts at most `n` bytes, or fails. */
  datatype SendEvent = Accepted(n: nat) | SendTimedOut | SendInterrupted | SendFailed

  datatype Writing = Writing(wire: seq<byte>, complete: bool, events: seq<SendEvent>)

  function Min(a: nat, b: nat): nat {
    if a < b then a else b
  }

  /** What one send of `size` bytes returns, as an unsigned count: without exceptions a failed send
      returns -1, and a send that raises returns nothing. */
  function SendResult(exceptions: bool, es: seq<SendEvent>, size: nat): (sent: nat)
    requires size < UNSIGNED_RANGE
    ensures sent < UNSIGNED_RANGE
  {
    if es == [] then 0 else match es[0]
      case Accepted(n) => Min(n, size)
      case SendFailed => if exceptions then 0 else UNSIGNED_RANGE - 1
      case _ => 0
  }

  /** What one send from the given offset puts on the wire. */
  function Transmitted(es: seq<SendEvent>, toSend: seq<byte>, bytes: nat): seq<byte>
    requires bytes <= |toSend|
  {
    if es != [] && es[0].Accepted? then toSend[bytes..bytes + Min(es[0].n, |toSend| - bytes)] else []
  }

  function LaterSends(es: seq<SendEvent>): seq<SendEvent> {
    if es == [] then [] else es[1..]
  }

  /** Adding to a 32-bit unsigned count. */
  function Advance(bytes: nat, sent: nat): (r: nat)
    requires bytes < UNSIGNED_RANGE && sent < UNSIGNED_RANGE
    ensures r == (bytes + sent) % UNSIGNED_RANGE
  {
    if bytes + sent < UNSIGNED_RANGE then bytes + sent else bytes + sent - UNSIGNED_RANGE
  }

  /** Sends `toSend` from the 32-bit offset `bytes` on. */
  function WriteSpec(exceptions: bool, toSend: seq<byte>, bytes: nat, es: seq<SendEvent>): (w: Writing)
    requires bytes < UNSIGNED_RANGE && |toSend| < UNSIGNED_RANGE
    decreases |es|
  {
    if bytes >= |toSend| then Writing([], bytes == |toSend|, es)
    else
      var sent := SendResult(exceptions, es, |toSend| - bytes);
      if sent == 0 then Writing([], false, LaterSends(es)) else
      var w := WriteSpec(exceptions, toSend, Advance(bytes, sent), es[1..]);
      w.(wire := Transmitted(es, toSend, bytes) + w.wire)
  }

  lemma WriteContinues(exceptions: bool, toSend: seq<byte>, bytes: nat, es: seq<SendEvent>)
    requires bytes < |toSend| < UNSIGNED_RANGE && SendResult(exceptions, es, |toSend| - bytes) != 0
    ensures var w := WriteSpec(exceptions, toSend, bytes, es);
            var w' := WriteSpec(exceptions, toSend, Advance(bytes, SendResult(exceptions, es, |toSend| - bytes)),
                                es[1..]);
            && w.complete == w'.complete && w.events == w'.events
            && w.wire == Transmitted(es, toSend, bytes) + w'.wire
  {
  }

  lemma WriteStops(exceptions: bool, toSend: seq<byte>, bytes: nat, es: seq<SendEvent>)
    requires bytes < UNSIGNED_RANGE && |toSend| < UNSIGNED_RANGE
    requires bytes >= |toSend| || SendResult(exceptions, es, |toSend| - bytes) == 0
    ensures var w := WriteSpec(exceptions, toSend, bytes, es);
            && w.wire == [] && w.complete == (bytes == |toSend|)
            && w.events == (if bytes >= |toSend| then es else LaterSends(es))
  {
  }

  function Failures(es: seq<SendEvent>): nat {
    if es == [] then 0 else (if es[0].SendFailed? then 1 else 0) + Failures(es[1..])
  }

  /** A write that reports success has put one byte too many on the wire for every failed send on the way. */
  lemma {:induction false} CompleteWriteLength(exceptions: bool, toSend: seq<byte>, bytes: nat, es: seq<SendEvent>)
    requires bytes < UNSIGNED_RANGE && |toSend| < UNSIGNED_RANGE - 1
    ensures var w := WriteSpec(exceptions, toSend, bytes, es);
            && |w.events| <= |es|
            && w.events == es[|es| - |w.events|..]
            && (w.complete ==> bytes + |w.wire| == |toSend| + Failures(es[..|es| - |w.events|]))
    decreases |es|
  {
    if bytes < |toSend| {
      var sent := SendResult(exceptions, es, |toSend| - bytes);
      if sent != 0 {
        CompleteWriteLength(exceptions, toSend, Advance(bytes, sent), es[1..]);
        var used := |es| - |WriteSpec(exceptions, toSend, bytes, es).events|;
        assert es[..used][1..] == es[1..][..used - 1];
      }
    }
  }

  /** Without a failed send the wire holds a prefix of the frame, and all of it exactly on success. */
  lemma {:induction false} WriteIsPrefix(exceptions: bool, toSend: seq<byte>, bytes: nat, es: seq<SendEvent>)
    requires bytes <= |toSend| < UNSIGNED_RANGE
    requires var w := WriteSpec(exceptions, toSend, bytes, es);
             |w.events| <= |es| && Failures(es[..|es| - |w.events|]) == 0
    ensures var w := WriteSpec(exceptions, toSend, bytes, es);
            && bytes + |w.wire| <= |toSend|
            && w.wire == toSend[bytes..bytes + |w.wire|]
            && (w.complete <==> bytes + |w.wire| == |toSend|)
    decreases |es|
  {
    hide WriteSpec, Failures;
    if bytes == |toSend| || SendResult(exceptions, es, |toSend| - bytes) == 0 {
      WriteStops(exceptions, toSend, bytes, es);
    } else {
      var sent := SendResult(exceptions, es, |toSend| - bytes);
      WriteContinues(exceptions, toSend, bytes, es);
      FirstSendAccepted(exceptions, toSend, bytes, es);
      WriteIsPrefix(exceptions, toSend, bytes + sent, es[1..]);
      var later := WriteSpec(exceptions, toSend, bytes + sent, es[1..]).wire;
      assert Transmitted(es, toSend, bytes) == toSend[bytes..bytes + sent];
      assert WriteSpec(exceptions, toSend, bytes, es).wire == toSend[bytes..bytes + sent] + later;
    }
  }

  lemma FirstSendAccepted(exceptions: bool, toSend: seq<byte>, bytes: nat, es: seq<SendEvent>)
    requires bytes < |toSend| < UNSIGNED_RANGE && SendResult(exceptions, es, |toSend| - bytes) != 0
    requires var w := WriteSpec(exceptions, toSend, bytes, es);
             |w.events| <= |es| && Failures(es[..|es| - |w.events|]) == 0
    ensures es[0].Accepted?
    ensures var w' := WriteSpec(exceptions, toSend, bytes + SendResult(exceptions, es, |toSend| - bytes), es[1..]);
            |w'.events| <= |es[1..]| && Failures(es[1..][..|es[1..]| - |w'.events|]) == 0
  {
    hide WriteSpec, Transmitted;
    var sent := SendResult(exceptions, es, |toSend| - bytes);
    WriteContinues(exceptions, toSend, bytes, es);
    SendsConsume(exceptions, toSend, Advance(bytes, sent), es[1..]);
    var used := |es| - |WriteSpec(exceptions, toSend, bytes, es).events|;
    assert es[..used][0] == es[0] && es[..used][1..] == es[1..][..used - 1];
  }

  lemma {:induction false} SendsConsume(exceptions: bool, toSend: seq<byte>, bytes: nat, es: seq<SendEvent>)
    requires bytes < UNSIGNED_RANGE && |toSend| < UNSIGNED_RANGE
    ensures |WriteSpec(exceptions, toSend, bytes, es).events| <= |es|
    decreases |es|
  {
    if bytes < |toSend| {
      var sent := SendResult(exceptions, es, |toSend| - bytes);
      if sent != 0 {
        SendsConsume(exceptions, toSend, Advance(bytes, sent), es[1..]);
      }
    }
  }

  /** The bytes accepted before the first send that accepts none. */
  function Room(es: seq<SendEvent>): nat {
    if es == [] || !es[0].Accepted? || es[0].n == 0 then 0 else es[0].n + Room(es[1..])
  }

  /** When a write without a failed send is complete, exactly: the sends before the first one that accepts
      nothing must have room for it.  A time-out or an interruption ends it like an empty send. */
  lemma {:induction false} WriteNeedsRoom(exceptions: bool, toSend: seq<byte>, bytes: nat, es: seq<SendEvent>)
    requires bytes <= |toSend| < UNSIGNED_RANGE && (exceptions || forall i | 0 <= i < |es| :: !es[i].SendFailed?)
    ensures var w := WriteSpec(exceptions, toSend, bytes, es);
            && (w.complete <==> |toSend| - bytes <= Room(es))
            && w.wire == toSend[bytes..bytes + Min(Room(es), |toSend| - bytes)]
    decreases |es|
  {
    hide WriteSpec;
    if bytes == |toSend| || SendResult(exceptions, es, |toSend| - bytes) == 0 {
      WriteStops(exceptions, toSend, bytes, es);
    } else {
      var sent := SendResult(exceptions, es, |toSend| - bytes);
      assert es[0].Accepted?;
      WriteContinues(exceptions, toSend, bytes, es);
      WriteNeedsRoom(exceptions, toSend, bytes + sent, es[1..]);
    }
  }

  /** A failed send without exceptions takes the write back by one byte, and ends it at the first byte. */
  lemma FailedSendStepsBack(toSend: seq<byte>, bytes: nat, es: seq<SendEvent>)
    requires bytes < |toSend| < UNSIGNED_RANGE - 1
    ensures WriteSpec(false, toSend, bytes, [SendFailed] + es)
            == if bytes == 0 then Writing([], false, es) else WriteSpec(false, toSend, bytes - 1, es)
  {
    var failed := [SendFailed] + es;
    assert failed[1..] == es;
    hide WriteSpec;
    WriteContinues(false, toSend, bytes, failed);
    var w := WriteSpec(false, toSend, Advance(bytes, UNSIGNED_RANGE - 1), es);
    assert [] + w.wire == w.wire;
    if bytes == 0 {
      WriteStops(false, toSend, UNSIGNED_RANGE - 1, es);
    }
  }

  /** Exactly once, exactly when: a write that reports success has put the frame itself on the
      wire if and only if no send failed on the way. */
  lemma WrittenExactlyOnce(exceptions: bool, m: Payload, es: seq<SendEvent>)
    requires WriteSpec(exceptions, Encode(m), 0, es).complete
    ensures var w := WriteSpec(exceptions, Encode(m), 0, es);
            && |w.events| <= |es|
            && (w.wire == Encode(m) <==> Failures(es[..|es| - |w.events|]) == 0)
  {
    var w := WriteSpec(exceptions, Encode(m), 0, es);
    CompleteWriteLength(exceptions, Encode(m), 0, es);
    if Failures(es[..|es| - |w.events|]) == 0 {
      WriteIsPrefix(exceptions, Encode(m), 0, es);
      assert Encode(m)[0..] == Encode(m);
    }
  }

  /** The promise that a message goes out exactly once is false without exceptions: here a send
      fails after four bytes, the write still reports success, and the last of those four bytes
      is on the wire twice. */
  lemma FailedSendRepeatsAByte()
    ensures var es := [Accepted(4), SendFailed, Accepted(2)];
            var w := WriteSpec(false, Encode([65]), 0, es);
            w.complete && w.wire == [0, 0, 0, 1, 1, 65] != Encode([65])
  {
    var toSend := Encode([65]);
    assert toSend == [0, 0, 0, 1, 65];
    var es := [Accepted(4), SendFailed, Accepted(2)];
    assert es[1..] == [SendFailed, Accepted(2)] && es[1..][1..] == [Accepted(2)] && [Accepted(2)][1..] == [];
    assert toSend[3..][..2] == [1, 65] && toSend[0..][..4] == [0, 0, 0, 1];
    assert WriteSpec(false, toSend, 5, []) == Writing([], true, []);
    assert WriteSpec(false, toSend, 3, [Accepted(2)]) == Writing([1, 65], true, []);
    assert WriteSpec(false, toSend, 4, es[1..]) == Writing([1, 65], true, []);
    assert [0, 0, 0, 1] + [1, 65] == [0, 0, 0, 1, 1, 65];
  }

  /** A schedule under which every send accepts something, and enough of it. */
  function Capacity(es: seq<SendEvent>): nat {
    if es == [] then 0 else (if es[0].Accepted? then es[0].n else 0) + Capacity(es[1..])
  }

  predicate AllPositive(es: seq<SendEvent>) {
    forall e <- es :: e.Accepted? && e.n > 0
  }

  lemma {:induction false} PositiveSendsComplete(exceptions: bool, toSend: seq<byte>, bytes: nat, es: seq<SendEvent>)
    requires bytes <= |toSend| < UNSIGNED_RANGE
    requires AllPositive(es) && |toSend| - bytes <= Capacity(es)
    ensures var w := WriteSpec(exceptions, toSend, bytes, es);
            w.complete && w.wire == toSend[bytes..]
    decreases |es|
  {
    hide WriteSpec;
    if bytes == |toSend| {
      WriteStops(exceptions, toSend, bytes, es);
    } else {
      var k := Min(es[0].n, |toSend| - bytes);
      assert es[0] in es && AllPositive(es[1..]);
      WriteContinues(exceptions, toSend, bytes, es);
      PositiveSendsComplete(exceptions, toSend, bytes + k, es[1..]);
      assert toSend[bytes..] == toSend[bytes..bytes + k] + toSend[bytes + k..];
    }
  }

  /** Writing several messages over one schedule: each write goes on where the one before it stopped,
      and an incomplete write is the last. */
  function WriteRun(exceptions: bool, ms: seq<Payload>, es: seq<SendEvent>): Writing {
    if ms == [] then Writing([], true, es) else
    var w := WriteSpec(exceptions, Encode(ms[0]), 0, es);
    if !w.complete then w else
    var later := WriteRun(exceptions, ms[1..], w.events);
    later.(wire := w.wire + later.wire)
  }

  lemma {:induction false} FailuresSplit(xs: seq<SendEvent>, ys: seq<SendEvent>)
    ensures Failures(xs + ys) == Failures(xs) + Failures(ys)
  {
    if xs == [] {
      assert xs + ys == ys;
    } else {
      FailuresSplit(xs[1..], ys);
      assert (xs + ys)[1..] == xs[1..] + ys;
    }
  }

  lemma UsedInStages(es: seq<SendEvent>, es1: seq<SendEvent>, es2: seq<SendEvent>)
    requires |es2| <= |es1| <= |es| && es1 == es[|es| - |es1|..]
    ensures Failures(es[..|es| - |es2|]) == Failures(es[..|es| - |es1|]) + Failures(es1[..|es1| - |es2|])
  {
    assert es[..|es| - |es2|] == es[..|es| - |es1|] + es1[..|es1| - |es2|];
    FailuresSplit(es[..|es| - |es1|], es1[..|es1| - |es2|]);
  }

  lemma WriteRunContinues(exceptions: bool, ms: seq<Payload>, es: seq<SendEvent>)
    requires ms != [] && WriteRun(exceptions, ms, es).complete
    ensures var w := WriteSpec(exceptions, Encode(ms[0]), 0, es);
            var later, all := WriteRun(exceptions, ms[1..], w.events), WriteRun(exceptions, ms, es);
            && w.complete && later.complete && all.events == later.events && all.wire == w.wire + later.wire
            && |w.events| <= |es| && w.events == es[|es| - |w.events|..]
            && |w.wire| == |Encode(ms[0])| + Failures(es[..|es| - |w.events|])
            && (w.wire == Encode(ms[0]) <==> Failures(es[..|es| - |w.events|]) == 0)
  {
    hide WriteSpec, Failures;
    CompleteWriteLength(exceptions, Encode(ms[0]), 0, es);
    WrittenExactlyOnce(exceptions, ms[0], es);
  }

  /** Several writes that all report success put one byte too many on the wire for every failed send,
      and exactly the frames, in order, when none failed. */
  lemma {:induction false} WriteRunAccounts(exceptions: bool, ms: seq<Payload>, es: seq<SendEvent>)
    requires WriteRun(exceptions, ms, es).complete
    ensures var w := WriteRun(exceptions, ms, es);
            && |w.events| <= |es| && w.events == es[|es| - |w.events|..]
            && |w.wire| == |EncodeAll(ms)| + Failures(es[..|es| - |w.events|])
            && (Failures(es[..|es| - |w.events|]) == 0 ==> w.wire == EncodeAll(ms))
  {
    hide WriteSpec, WriteRun, Failures, EncodeAll, Encode;
    if ms == [] {
      NoWrites(exceptions, es);
    } else {
      var w := WriteSpec(exceptions, Encode(ms[0]), 0, es);
      WriteRunContinues(exceptions, ms, es);
      WriteRunAccounts(exceptions, ms[1..], w.events);
      var later := WriteRun(exceptions, ms[1..], w.events);
      UsedInStages(es, w.events, later.events);
      EncodeAllFirst(ms);
    }
  }

  lemma NoWrites(exceptions: bool, es: seq<SendEvent>)
    ensures WriteRun(exceptions, [], es) == Writing([], true, es) && EncodeAll([]) == []
            && Failures(es[..|es| - |es|]) == 0
    ensures es[|es| - |es|..] == es
  {
  }

  /** Writes that all report success put the frames of all messages on the wire, once each and in order,
      if and only if none of their sends failed. */
  lemma WireIsEncodeAll(exceptions: bool, ms: seq<Payload>, es: seq<SendEvent>)
    requires WriteRun(exceptions, ms, es).complete
    ensures var w := WriteRun(exceptions, ms, es);
            |w.events| <= |es| && (w.wire == EncodeAll(ms) <==> Failures(es[..|es| - |w.events|]) == 0)
  {
    WriteRunAccounts(exceptions, ms, es);
    hide WriteRun, Failures, EncodeAll;
  }

  /** Positive partial sends, one for every byte at least, complete every write without a failure. */
  lemma {:induction false} PositiveRunCompletes(exceptions: bool, ms: seq<Payload>, es: seq<SendEvent>)
    requires AllPositive(es) && |es| >= |EncodeAll(ms)|
    ensures WriteRun(exceptions, ms, es).complete && WriteRun(exceptions, ms, es).wire == EncodeAll(ms)
  {
    if ms != [] {
      var toSend := Encode(ms[0]);
      EnoughCapacity(es);
      PositiveSendsComplete(exceptions, toSend, 0, es);
      PositiveSendsUsed(exceptions, toSend, 0, es);
      hide WriteSpec, Encode;
      PositiveRunCompletes(exceptions, ms[1..], WriteSpec(exceptions, toSend, 0, es).events);
      assert toSend[0..] == toSend;
    }
  }

  lemma {:induction false} EnoughCapacity(es: seq<SendEvent>)
    requires AllPositive(es)
    ensures Capacity(es) >= |es|
  {
    if es != [] {
      assert es[0] in es;
      EnoughCapacity(es[1..]);
    }
  }

  /** A write uses at most one positive send for every byte. */
  lemma {:induction false} PositiveSendsUsed(exceptions: bool, toSend: seq<byte>, bytes: nat, es: seq<SendEvent>)
    requires bytes <= |toSend| < UNSIGNED_RANGE && AllPositive(es) && |es| >= |toSend| - bytes
    ensures var w := WriteSpec(exceptions, toSend, bytes, es);
            AllPositive(w.events) && |w.events| >= |es| - (|toSend| - bytes)
    decreases |es|
  {
    hide WriteSpec;
    if bytes == |toSend| {
      WriteStops(exceptions, toSend, bytes, es);
    } else {
      assert es[0] in es && AllPositive(es[1..]);
      WriteContinues(exceptions, toSend, bytes, es);
      PositiveSendsUsed(exceptions, toSend, bytes + Min(es[0].n, |toSend| - bytes), es[1..]);
    }
  }

  /** Write/read round trip: messages written one after the other over one schedule of sends, all
      reported as sent and none failed, and cut into any chunks with time-outs between frames only, come
      back unchanged, once each and in order. */
  lemma WriteReadRoundTrip(exceptions: bool, ms: seq<Payload>, sends: seq<SendEvent>, es: seq<RecvEvent>)
    requires var w := WriteRun(exceptions, ms, sends);
             && w.complete && |w.events| <= |sends| && Failures(sends[..|sends| - |w.events|]) == 0
             && AllBytes(es) == w.wire
    requires PausesBetween([], es, ms)
    ensures Delivered(exceptions, [], es, |ms| + TimeOuts(es)) == ms
  {
    WireIsEncodeAll(exceptions, ms, sends);
    hide WriteRun, Failures, EncodeAll, PausesBetween, AllBytes, Delivered;
    assert [] + AllBytes(es) == EncodeAll(ms);
    ChunkingIndependence(exceptions, [], es, ms);
  }

  // ----- reads that divert XML

  const XML_MAGIC: seq<byte> := [60, 63, 120, 109, 108]

  predicate IsXml(m: seq<byte>) {
    XML_MAGIC <= m
  }

  /** A data read: an XML message at the front is put aside and one more read follows. */
  datatype DataReading = DataReading(diverted: seq<seq<byte>>, last: Reading)

  function ReadDataSpec(exceptions: bool, intercept: bool, next: seq<byte>, es: seq<RecvEvent>): (r: DataReading) {
    var first := ReadSpec(exceptions, next, es);
    if intercept && first.outcome.Message? && IsXml(first.outcome.payload) then
      DataReading([first.outcome.payload], ReadSpec(exceptions, first.next, first.events))
    else
      DataReading([], first)
  }

  /** What successive data reads hand out of a stream of messages, and what they put aside. */
  function DataOf(ms: seq<seq<byte>>): seq<seq<byte>> {
    if ms == [] then [] else if !IsXml(ms[0]) then [ms[0]] + DataOf(ms[1..])
    else if |ms| == 1 then [] else [ms[1]] + DataOf(ms[2..])
  }

  function DivertedOf(ms: seq<seq<byte>>): seq<seq<byte>> {
    if ms == [] then [] else if !IsXml(ms[0]) then DivertedOf(ms[1..])
    else [ms[0]] + (if |ms| == 1 then [] else DivertedOf(ms[2..]))
  }

  /** The data and the diverted messages of `calls` successive data reads; a time-out ends a data read
      but not the run.  `intercept` says that XML is diverted at all. */
  function DataRun(exceptions: bool, intercept: bool, next: seq<byte>, es: seq<RecvEvent>, calls: nat)
    : (seq<seq<byte>>, seq<seq<byte>>)
    decreases calls
  {
    if calls == 0 then ([], []) else
    var d := ReadDataSpec(exceptions, intercept, next, es);
    var o := d.last.outcome;
    Collect(d, if o.Message? || o.Idle? then DataRun(exceptions, intercept, d.last.next, d.last.events, calls - 1)
               else ([], []))
  }

  function Collect(d: DataReading, later: (seq<seq<byte>>, seq<seq<byte>>)): (seq<seq<byte>>, seq<seq<byte>>) {
    ((if d.last.outcome.Message? then [d.last.outcome.payload] else []) + later.0, d.diverted + later.1)
  }

  /** One data read of a carried stream: it diverts an XML message in front, and then hands out the next
      message, or times out between two messages, or finds the stream at its end. */
  lemma DataReadCarried(exceptions: bool, next: seq<byte>, es: seq<RecvEvent>, ms: seq<Payload>)
    requires Carries(next, es, ms) && (ms != [] || es != [])
    ensures var d := ReadDataSpec(exceptions, true, next, es);
            var left := ms[|d.diverted|..];
            && d.diverted <= ms && |d.diverted| <= 1 && (d.diverted != [] ==> IsXml(ms[0]))
            && match d.last.outcome
               case Message(m) =>
                 && left != [] && m == left[0] && (IsXml(m) ==> d.diverted != [])
                 && Carries(d.last.next, d.last.events, left[1..]) && TimeOuts(d.last.events) == TimeOuts(es)
               case Idle => Carries(d.last.next, d.last.events, left) && TimeOuts(d.last.events) == TimeOuts(es) - 1
               case HungUp => left == [] && d.diverted != [] && TimeOuts(es) == 0
               case _ => false
  {
    hide Carries, IsXml;
    var r := ReadSpec(exceptions, next, es);
    ReadCarried(exceptions, next, es, ms);
    if r.outcome.Message? && IsXml(ms[0]) {
      assert ms[..1] == [ms[0]];
      if |ms| > 1 || r.events != [] {
        ReadCarried(exceptions, r.next, r.events, ms[1..]);
      } else {
        assert ms[1..] == [];
        NothingLeft(r.next, r.events);
      }
    }
    hide ReadSpec;
  }

  /** An event without data comes when exactly `n` bytes have come, `have` of them before `es`. */
  predicate PauseAt(have: nat, es: seq<RecvEvent>, n: nat)
    decreases |es|
  {
    es != []
    && if IsData(es[0]) then PauseAt(have + |es[0].data|, es[1..], n) else have == n || PauseAt(have, es[1..], n)
  }

  /** In front of which messages a time-out lies; the first of them begins after `at` bytes. */
  function Pauses(ms: seq<Payload>, have: nat, es: seq<RecvEvent>, at: nat): (p: seq<bool>)
    ensures |p| == |ms|
    decreases |ms|
  {
    if ms == [] then [] else [PauseAt(have, es, at)] + Pauses(ms[1..], have, es, at + |Encode(ms[0])|)
  }

  /** Which messages are diverted: XML, unless it comes right behind a diverted message with no time-out
      in between. */
  function Turns(ms: seq<seq<byte>>, p: seq<bool>, behind: bool): (turns: seq<bool>)
    requires |p| == |ms|
    ensures |turns| == |ms|
    decreases |ms|
  {
    if ms == [] then [] else
    var diverted := IsXml(ms[0]) && (behind ==> p[0]);
    [diverted] + Turns(ms[1..], p[1..], diverted)
  }

  /** The messages whose turn is `which`. */
  function Pick(ms: seq<seq<byte>>, turns: seq<bool>, which: bool): seq<seq<byte>>
    requires |turns| == |ms|
    decreases |ms|
  {
    if ms == [] then []
    else if turns[0] == which then [ms[0]] + Pick(ms[1..], turns[1..], which)
    else Pick(ms[1..], turns[1..], which)
  }

  /** The turns that a stream of messages takes under the chunks and time-outs of `es`. */
  function TurnsOf(ms: seq<Payload>, next: seq<byte>, es: seq<RecvEvent>): (turns: seq<bool>)
    ensures |turns| == |ms|
  {
    Turns(ms, Pauses(ms, |next|, es, 0), false)
  }

  /** What is handed out and what is put aside when the messages take these turns. */
  function Divided(ms: seq<seq<byte>>, turns: seq<bool>): (seq<seq<byte>>, seq<seq<byte>>)
    requires |turns| == |ms|
  {
    (Pick(ms, turns, false), Pick(ms, turns, true))
  }

  // what a read does to the pauses in front of the messages behind it

  lemma {:induction false} GatherPauses(have: seq<byte>, es: seq<RecvEvent>, need: nat, n: nat)
    ensures var (got, rest) := Gather(have, es, need); PauseAt(|have|, es, n) == PauseAt(|got|, rest, n)
    decreases |es|
  {
    if |have| < need && es != [] && IsData(es[0]) {
      GatherPauses(have + es[0].data, es[1..], need, n);
    }
  }

  lemma {:induction false} PauseShift(have: nat, es: seq<RecvEvent>, n: nat, more: nat)
    ensures PauseAt(have + more, es, n + more) == PauseAt(have, es, n)
    decreases |es|
  {
    if es != [] {
      PauseShift(if IsData(es[0]) then have + |es[0].data| else have, es[1..], n, more);
    }
  }

  lemma {:induction false} NoPauseBefore(have: nat, es: seq<RecvEvent>, n: nat)
    requires have > n
    ensures !PauseAt(have, es, n)
    decreases |es|
  {
    if es != [] {
      NoPauseBefore(if IsData(es[0]) then have + |es[0].data| else have, es[1..], n);
    }
  }

  lemma {:induction false} PausesBehindFrame(ms: seq<Payload>, next: seq<byte>, es: seq<RecvEvent>, need: nat, at: nat)
    requires need <= |Gather(next, es, need).0|
    ensures var (got, rest) := Gather(next, es, need);
            Pauses(ms, |next|, es, at + need) == Pauses(ms, |got| - need, rest, at)
    decreases |ms|
  {
    hide Gather, PauseAt, Encode;
    if ms != [] {
      var (got, rest) := Gather(next, es, need);
      GatherPauses(next, es, need, at + need);
      PauseShift(|got| - need, rest, at, need);
      PausesBehindFrame(ms[1..], next, es, need, at + |Encode(ms[0])|);
    }
  }

  lemma {:induction false} PausesBehindIdle(ms: seq<Payload>, es: seq<RecvEvent>, at: nat)
    requires es != [] && !IsData(es[0]) && at > 0
    ensures Pauses(ms, 0, es, at) == Pauses(ms, 0, es[1..], at)
    decreases |ms|
  {
    if ms != [] {
      PausesBehindIdle(ms[1..], es, at + |Encode(ms[0])|);
    }
  }

  /** A read that returns the first message had no time-out in front of it, and leaves the others as they were. */
  lemma PausesAfterMessage(exceptions: bool, next: seq<byte>, es: seq<RecvEvent>, ms: seq<Payload>)
    requires Carries(next, es, ms) && ms != [] && ReadSpec(exceptions, next, es).outcome.Message?
    ensures var r, p := ReadSpec(exceptions, next, es), Pauses(ms, |next|, es, 0);
            !p[0] && p[1..] == Pauses(ms[1..], |r.next|, r.events, 0)
  {
    var need := |Encode(ms[0])|;
    MessageTaken(exceptions, next, es, ms);
    NotIdleInFront(exceptions, next, es);
    hide ReadSpec, Gather, Encode, PauseAt;
    PausesBehindFrame(ms[1..], next, es, need, 0);
  }

  lemma MessageTaken(exceptions: bool, next: seq<byte>, es: seq<RecvEvent>, ms: seq<Payload>)
    requires Carries(next, es, ms) && ms != [] && ReadSpec(exceptions, next, es).outcome.Message?
    ensures var r, need := ReadSpec(exceptions, next, es), |Encode(ms[0])|;
            var (got, rest) := Gather(next, es, need);
            need <= |got| && r.next == got[need..] && r.events == rest
  {
    assert HEADER_SIZE <= |Gather(next, es, HEADER_SIZE).0|;
    FirstFrameTaken(next, es, ms);
  }

  lemma NotIdleInFront(exceptions: bool, next: seq<byte>, es: seq<RecvEvent>)
    requires ReadSpec(exceptions, next, es).outcome.Message?
    ensures !PauseAt(|next|, es, 0)
  {
    if next != [] {
      NoPauseBefore(|next|, es, 0);
    } else if es != [] {
      assert IsData(es[0]);
      NoPauseBefore(|es[0].data|, es[1..], 0);
    }
  }

  /** A read that times out leaves all messages, and all time-outs but those in front of the first. */
  lemma PausesAfterIdle(exceptions: bool, next: seq<byte>, es: seq<RecvEvent>, ms: seq<Payload>)
    requires ReadSpec(exceptions, next, es).outcome.Idle? && ms != []
    ensures var r, p := ReadSpec(exceptions, next, es), Pauses(ms, |next|, es, 0);
            p[0] && p[1..] == Pauses(ms, |r.next|, r.events, 0)[1..]
  {
    IdleTaken(exceptions, next, es);
    hide ReadSpec;
    PausesBehindIdle(ms[1..], es, |Encode(ms[0])|);
  }

  lemma IdleTaken(exceptions: bool, next: seq<byte>, es: seq<RecvEvent>)
    requires ReadSpec(exceptions, next, es).outcome.Idle?
    ensures var r := ReadSpec(exceptions, next, es);
            next == r.next == [] && es != [] && !IsData(es[0]) && r.events == es[1..]
  {
    ReadAccounts(exceptions, next, es);
    TakenAccounts(next, es);
    hide Taken;
  }

  // what one data read does to the turns

  /** The first message never depends on a time-out in front of it, unless it is right behind a diverted one. */
  lemma TurnsUnfold(ms: seq<seq<byte>>, p: seq<bool>, behind: bool)
    requires |p| == |ms| && ms != [] && (behind ==> p[0])
    ensures Turns(ms, p, behind) == [IsXml(ms[0])] + Turns(ms[1..], p[1..], IsXml(ms[0]))
  {
  }

  lemma HandedOutUnfold(ms: seq<seq<byte>>, p: seq<bool>)
    requires |p| == |ms| && ms != [] && !p[0]
    ensures Turns(ms, p, true) == [false] + Turns(ms[1..], p[1..], false)
  {
  }

  /** Behind a message that a read has returned. */
  lemma DividedAfterMessage(exceptions: bool, next: seq<byte>, es: seq<RecvEvent>, ms: seq<Payload>)
    requires Carries(next, es, ms) && ms != [] && ReadSpec(exceptions, next, es).outcome.Message?
    ensures var r := ReadSpec(exceptions, next, es);
            var p := Pauses(ms[1..], |r.next|, r.events, 0);
            && (IsXml(ms[0]) ==> TurnsOf(ms, next, es) == [true] + Turns(ms[1..], p, true))
            && (!IsXml(ms[0]) ==> TurnsOf(ms, next, es) == [false] + TurnsOf(ms[1..], r.next, r.events))
            && Turns(ms, Pauses(ms, |next|, es, 0), true) == [false] + TurnsOf(ms[1..], r.next, r.events)
  {
    PausesAfterMessage(exceptions, next, es, ms);
    hide ReadSpec, Carries, Turns, Pauses, IsXml;
    TurnsUnfold(ms, Pauses(ms, |next|, es, 0), false);
    HandedOutUnfold(ms, Pauses(ms, |next|, es, 0));
  }

  /** Behind a read that has timed out, where a diverted message before it has no say any more. */
  lemma DividedAfterIdle(exceptions: bool, next: seq<byte>, es: seq<RecvEvent>, ms: seq<Payload>, behind: bool)
    requires ReadSpec(exceptions, next, es).outcome.Idle?
    ensures var r := ReadSpec(exceptions, next, es);
            Turns(ms, Pauses(ms, |next|, es, 0), behind) == TurnsOf(ms, r.next, r.events)
  {
    if ms != [] {
      var r := ReadSpec(exceptions, next, es);
      PausesAfterIdle(exceptions, next, es, ms);
      hide ReadSpec, Turns, Pauses, IsXml;
      TurnsUnfold(ms, Pauses(ms, |next|, es, 0), behind);
      TurnsUnfold(ms, Pauses(ms, |r.next|, r.events, 0), false);
    }
  }

  lemma NothingAtAll(next: seq<byte>)
    ensures Carries(next, [], []) ==> next == []
  {
  }

  lemma AtLeastOne(next: seq<byte>, es: seq<RecvEvent>, ms: seq<Payload>)
    requires Carries(next, es, ms) && (ms != [] || es != [])
    ensures |ms| + TimeOuts(es) > 0
  {
    if ms == [] {
      assert AllBytes(es) == [];
    }
  }

  lemma RunContinues(exceptions: bool, next: seq<byte>, es: seq<RecvEvent>, calls: nat)
    requires calls > 0
    ensures var d := ReadDataSpec(exceptions, true, next, es);
            var o := d.last.outcome;
            DataRun(exceptions, true, next, es, calls)
            == Collect(d, if o.Message? || o.Idle? then DataRun(exceptions, true, d.last.next, d.last.events, calls - 1)
                       else ([], []))
  {
  }

  lemma NothingMore(exceptions: bool, calls: nat)
    ensures DataRun(exceptions, true, [], [], calls) == ([], [])
  {
  }

  lemma NothingLeft(next: seq<byte>, es: seq<RecvEvent>)
    requires Carries(next, es, []) && TimeOuts(es) == 0
    ensures next == [] && es == []
  {
  }

  /** The turn taken by the last read of a data read: a message is handed out. */
  function Handed(o: Outcome): seq<bool> {
    if o.Message? then [false] else []
  }

  /** What one data read hands out and puts aside, in front of the division of what it leaves. */
  lemma CollectTurns(d: DataReading, ms: seq<seq<byte>>, turns: seq<bool>, later: seq<bool>)
    requires |turns| == |ms| && d.diverted <= ms && |d.diverted| <= 1
    requires turns == (if d.diverted == [] then [] else [true]) + Handed(d.last.outcome) + later
    requires d.last.outcome.Message? ==> |d.diverted| < |ms| && d.last.outcome.payload == ms[|d.diverted|]
    ensures var left := ms[|d.diverted| + |Handed(d.last.outcome)|..];
            |later| == |left| && Divided(ms, turns) == Collect(d, Divided(left, later))
  {
    hide Pick;
    if d.diverted == [] {
      CollectLast(d.last.outcome, ms, turns, later);
      assert [] + Divided(ms, turns).1 == Divided(ms, turns).1;
    } else {
      assert turns[1..] == Handed(d.last.outcome) + later;
      assert d.diverted == [ms[0]];
      PickUnfold(ms, turns);
      CollectLast(d.last.outcome, ms[1..], turns[1..], later);
      var k := |Handed(d.last.outcome)|;
      assert ms[1..][k..] == ms[1 + k..];
    }
  }

  lemma CollectLast(o: Outcome, ms: seq<seq<byte>>, turns: seq<bool>, later: seq<bool>)
    requires |turns| == |ms| && turns == Handed(o) + later
    requires o.Message? ==> ms != [] && o.payload == ms[0]
    ensures var left := ms[|Handed(o)|..];
            && |later| == |left|
            && Divided(ms, turns).0 == (if o.Message? then [o.payload] else []) + Divided(left, later).0
            && Divided(ms, turns).1 == Divided(left, later).1
  {
    hide Pick;
    if o.Message? {
      assert turns[1..] == later;
      PickUnfold(ms, turns);
    } else {
      assert turns == later && ms[0..] == ms;
      assert [] + Divided(ms, turns).0 == Divided(ms, turns).0;
    }
  }

  lemma PickUnfold(ms: seq<seq<byte>>, turns: seq<bool>)
    requires |turns| == |ms| && ms != []
    ensures var later := Divided(ms[1..], turns[1..]);
            Divided(ms, turns) == if turns[0] then (later.0, [ms[0]] + later.1) else ([ms[0]] + later.0, later.1)
  {
  }

  /** The first turns of a stream are those of one data read. */
  lemma TurnsOfDataRead(exceptions: bool, next: seq<byte>, es: seq<RecvEvent>, ms: seq<Payload>)
    requires Carries(next, es, ms) && (ms != [] || es != [])
    ensures var d := ReadDataSpec(exceptions, true, next, es);
            var read := Handed(d.last.outcome);
            && |d.diverted| + |read| <= |ms|
            && TurnsOf(ms, next, es) == (if d.diverted == [] then [] else [true]) + read
                                        + TurnsOf(ms[|d.diverted| + |read|..], d.last.next, d.last.events)
  {
    hide ReadSpec, Carries, IsXml, Turns, Pauses, TimeOuts;
    var r := ReadSpec(exceptions, next, es);
    ReadCarried(exceptions, next, es, ms);
    if r.outcome.Idle? {
      DividedAfterIdle(exceptions, next, es, ms, false);
      var turns := TurnsOf(ms, r.next, r.events);
      assert ms[0..] == ms && [] + [] + turns == turns == Turns(ms, Pauses(ms, |next|, es, 0), false);
    } else {
      DividedAfterMessage(exceptions, next, es, ms);
      if IsXml(ms[0]) {
        TurnsBehindDiverted(exceptions, r.next, r.events, ms[1..]);
      }
    }
  }

  /** The second read of a data read, behind a message it has diverted. */
  lemma TurnsBehindDiverted(exceptions: bool, next: seq<byte>, es: seq<RecvEvent>, ms: seq<Payload>)
    requires Carries(next, es, ms)
    ensures var r := ReadSpec(exceptions, next, es);
            var read := Handed(r.outcome);
            && |read| <= |ms|
            && Turns(ms, Pauses(ms, |next|, es, 0), true) == read + TurnsOf(ms[|read|..], r.next, r.events)
  {
    if ms == [] && es == [] {
      NothingAtAll(next);
    } else {
      ReadCarried(exceptions, next, es, ms);
      hide ReadSpec, Carries, IsXml, TurnsOf, Turns, Pauses;
      if ReadSpec(exceptions, next, es).outcome.Idle? {
        DividedAfterIdle(exceptions, next, es, ms, true);
        assert ms[0..] == ms;
      } else {
        DividedAfterMessage(exceptions, next, es, ms);
      }
    }
  }

  /** The messages a data read leaves for the later ones. */
  function LeftBehind(d: DataReading, ms: seq<Payload>): seq<Payload>
    requires |d.diverted| + |Handed(d.last.outcome)| <= |ms|
  {
    ms[|d.diverted| + |Handed(d.last.outcome)|..]
  }

  /** One data read makes progress: the stream it leaves carries the messages left. */
  lemma DataReadProgress(exceptions: bool, next: seq<byte>, es: seq<RecvEvent>, ms: seq<Payload>)
    requires Carries(next, es, ms) && (ms != [] || es != [])
    ensures var d := ReadDataSpec(exceptions, true, next, es);
            var o := d.last.outcome;
            && |d.diverted| + |Handed(o)| <= |ms| && d.diverted <= ms && |d.diverted| <= 1
            && (o.Message? ==> |d.diverted| < |ms| && o.payload == ms[|d.diverted|])
            && var left := LeftBehind(d, ms);
            && (o.Message? || o.Idle? ==>
                  && Carries(d.last.next, d.last.events, left)
                  && |left| + TimeOuts(d.last.events) < |ms| + TimeOuts(es))
            && (!o.Message? && !o.Idle? ==> left == [])
  {
    hide ReadDataSpec, Carries, IsXml, TimeOuts;
    DataReadCarried(exceptions, next, es, ms);
    var d := ReadDataSpec(exceptions, true, next, es);
    if d.last.outcome.Message? {
      assert ms[|d.diverted|..][1..] == LeftBehind(d, ms);
    }
  }

  /** It takes the first turns, and leaves the other messages theirs. */
  lemma DataReadDivides(exceptions: bool, next: seq<byte>, es: seq<RecvEvent>, ms: seq<Payload>)
    requires Carries(next, es, ms) && (ms != [] || es != [])
    ensures var d := ReadDataSpec(exceptions, true, next, es);
            && |d.diverted| + |Handed(d.last.outcome)| <= |ms|
            && var left := LeftBehind(d, ms);
            Divided(ms, TurnsOf(ms, next, es))
            == Collect(d, Divided(left, TurnsOf(left, d.last.next, d.last.events)))
  {
    hide ReadDataSpec, Carries, IsXml, TurnsOf, Divided, Collect, TimeOuts;
    DataReadProgress(exceptions, next, es, ms);
    TurnsOfDataRead(exceptions, next, es, ms);
    var d := ReadDataSpec(exceptions, true, next, es);
    CollectTurns(d, ms, TurnsOf(ms, next, es), TurnsOf(LeftBehind(d, ms), d.last.next, d.last.events));
  }

  /** The turns of a stream, exactly: successive data reads hand out and put aside the messages as their
      turns say, whatever the chunks and the time-outs between frames. */
  lemma {:induction false} DataRunExactly(exceptions: bool, next: seq<byte>, es: seq<RecvEvent>, ms: seq<Payload>,
          calls: nat)
    requires Carries(next, es, ms) && |ms| + TimeOuts(es) <= calls
    ensures DataRun(exceptions, true, next, es, calls) == Divided(ms, TurnsOf(ms, next, es))
    decreases calls
  {
    hide *;
    NothingDivided(next, es);
    if ms == [] && es == [] {
      NothingAtAll(next);
      NothingMore(exceptions, calls);
    } else {
      AtLeastOne(next, es, ms);
      RunContinues(exceptions, next, es, calls);
      DataReadProgress(exceptions, next, es, ms);
      DataReadDivides(exceptions, next, es, ms);
      var d := ReadDataSpec(exceptions, true, next, es);
      if d.last.outcome.Message? || d.last.outcome.Idle? {
        DataRunExactly(exceptions, d.last.next, d.last.events, LeftBehind(d, ms), calls - 1);
      } else {
        NothingDivided(d.last.next, d.last.events);
      }
    }
  }

  lemma NothingDivided(next: seq<byte>, es: seq<RecvEvent>)
    ensures Divided([], TurnsOf([], next, es)) == ([], [])
  {
  }

  // which time-outs make a difference

  function NoPauses(n: nat): (p: seq<bool>)
    ensures |p| == n
  {
    seq(n, _ => false)
  }

  /** No time-out lies in front of an XML message that would be handed out, right behind a diverted one. */
  predicate Undisturbed(ms: seq<seq<byte>>, p: seq<bool>, behind: bool)
    requires |p| == |ms|
    decreases |ms|
  {
    ms == [] || ((IsXml(ms[0]) && behind ==> !p[0]) && Undisturbed(ms[1..], p[1..], IsXml(ms[0]) && !behind))
  }

  /** Those time-outs change the turns, and no other does. */
  lemma {:induction false} DisturbedExactly(ms: seq<seq<byte>>, p: seq<bool>, behind: bool)
    requires |p| == |ms|
    ensures Turns(ms, p, behind) == Turns(ms, NoPauses(|ms|), behind) <==> Undisturbed(ms, p, behind)
    decreases |ms|
  {
    hide IsXml;
    if ms != [] {
      assert NoPauses(|ms|)[1..] == NoPauses(|ms[1..]|);
      if IsXml(ms[0]) && behind && p[0] {
        assert Turns(ms, p, behind)[0] != Turns(ms, NoPauses(|ms|), behind)[0];
      } else {
        var diverted := IsXml(ms[0]) && !behind;
        DisturbedExactly(ms[1..], p[1..], diverted);
        assert Turns(ms, p, behind)[1..] == Turns(ms[1..], p[1..], diverted);
        assert Turns(ms, NoPauses(|ms|), behind)[1..] == Turns(ms[1..], NoPauses(|ms[1..]|), diverted);
      }
    }
  }

  /** Without a time-out the turns are the plain ones. */
  lemma {:induction false} PlainTurns(ms: seq<seq<byte>>)
    ensures Divided(ms, Turns(ms, NoPauses(|ms|), false)) == (DataOf(ms), DivertedOf(ms))
    decreases |ms|
  {
    hide IsXml, Pick;
    if ms == [] {
      PickNothing();
    } else {
      var n := NoPauses(|ms|);
      assert n[1..] == NoPauses(|ms[1..]|);
      PickUnfold(ms, Turns(ms, n, false));
      if !IsXml(ms[0]) {
        PlainTurns(ms[1..]);
      } else if |ms| == 1 {
        PickNothing();
      } else {
        assert n[1..][1..] == NoPauses(|ms[2..]|) && ms[1..][1..] == ms[2..];
        PickUnfold(ms[1..], Turns(ms[1..], n[1..], true));
        PlainTurns(ms[2..]);
      }
    }
  }

  lemma PickNothing()
    ensures Divided([], []) == ([], [])
  {
  }

  /** Time-outs between frames make a difference only in front of an XML message right behind a diverted
      one: without such a time-out successive data reads hand out and put aside exactly these. */
  lemma DataRunOf(exceptions: bool, next: seq<byte>, es: seq<RecvEvent>, ms: seq<Payload>, calls: nat)
    requires Carries(next, es, ms) && |ms| + TimeOuts(es) <= calls
    requires Undisturbed(ms, Pauses(ms, |next|, es, 0), false)
    ensures DataRun(exceptions, true, next, es, calls) == (DataOf(ms), DivertedOf(ms))
  {
    DataRunExactly(exceptions, next, es, ms, calls);
    DisturbedExactly(ms, Pauses(ms, |next|, es, 0), false);
    PlainTurns(ms);
  }

  predicate NoXmlPairs(ms: seq<seq<byte>>) {
    forall i | 0 <= i < |ms| - 1 :: !(IsXml(ms[i]) && IsXml(ms[i + 1]))
  }

  /** So it is without any time-out, and when no XML message follows another. */
  lemma CalmStreams(next: seq<byte>, es: seq<RecvEvent>, ms: seq<Payload>)
    requires TimeOuts(es) == 0 || NoXmlPairs(ms)
    ensures Undisturbed(ms, Pauses(ms, |next|, es, 0), false)
  {
    if NoXmlPairs(ms) {
      PairlessUndisturbed(ms, Pauses(ms, |next|, es, 0), false);
    } else {
      UnpausedUndisturbed(ms, |next|, es, 0, false);
    }
  }

  lemma {:induction false} PairlessUndisturbed(ms: seq<seq<byte>>, p: seq<bool>, behind: bool)
    requires |p| == |ms| && NoXmlPairs(ms) && (behind && ms != [] ==> !IsXml(ms[0]))
    ensures Undisturbed(ms, p, behind)
    decreases |ms|
  {
    hide IsXml;
    if ms != [] {
      assert |ms| > 1 ==> !(IsXml(ms[0]) && IsXml(ms[0 + 1]));
      forall i | 0 <= i < |ms[1..]| - 1 ensures !(IsXml(ms[1..][i]) && IsXml(ms[1..][i + 1])) {
        assert ms[1..][i] == ms[i + 1];
      }
      PairlessUndisturbed(ms[1..], p[1..], IsXml(ms[0]) && !behind);
    }
  }

  lemma {:induction false} UnpausedUndisturbed(ms: seq<Payload>, have: nat, es: seq<RecvEvent>, at: nat, behind: bool)
    requires TimeOuts(es) == 0
    ensures Undisturbed(ms, Pauses(ms, have, es, at), behind)
    decreases |ms|
  {
    hide IsXml, TimeOuts;
    if ms != [] {
      NoPause(have, es, at);
      UnpausedUndisturbed(ms[1..], have, es, at + |Encode(ms[0])|, IsXml(ms[0]) && !behind);
    }
  }

  lemma {:induction false} NoPause(have: nat, es: seq<RecvEvent>, n: nat)
    requires TimeOuts(es) == 0
    ensures !PauseAt(have, es, n)
    decreases |es|
  {
    if es != [] {
      NoPause(have + |es[0].data|, es[1..], n);
    }
  }

  lemma ReadOneChunk(exceptions: bool, m: Payload, later: seq<RecvEvent>)
    ensures ReadSpec(exceptions, [], [Chunk(Encode(m))] + later) == Reading(Message(m), [], later)
  {
    var es := [Chunk(Encode(m))] + later;
    assert es[1..] == later && [] + Encode(m) == Encode(m) == Encode(m) + [];
    EncodeIsFrame(m, []);
    hide Encode;
    assert Gather([], es, HEADER_SIZE) == (Encode(m), later);
    assert Taken([], es) == (Encode(m), later);
    assert Encode(m)[HEADER_SIZE..FrameLength(Encode(m))] == m;
  }

  /** A time-out behind a diverted XML message does make a difference: the XML message after it is
      diverted as well, where without the time-out it is handed out. */
  lemma PauseDiverts(exceptions: bool, x: Payload, y: Payload)
    requires IsXml(x) && IsXml(y)
    ensures DataRun(exceptions, true, [], [Chunk(Encode(x)), TimedOut, Chunk(Encode(y))], 3) == ([], [x, y])
    ensures DataOf([x, y]) == [y] && DivertedOf([x, y]) == [x]
  {
    hide Encode, IsXml;
    var es1, es2 := [TimedOut, Chunk(Encode(y))], [Chunk(Encode(y))];
    assert [Chunk(Encode(x))] + es1 == [Chunk(Encode(x)), TimedOut, Chunk(Encode(y))] && es2 + [] == es2;
    ReadOneChunk(exceptions, x, es1);
    ReadOneChunk(exceptions, y, []);
    assert es1[1..] == es2;
    assert ReadSpec(exceptions, [], es1) == Reading(Idle, [], es2);
    assert ReadSpec(exceptions, [], []) == Reading(HungUp, [], []);
    hide ReadSpec, DataRun;
    RunContinues(exceptions, [], [Chunk(Encode(x))] + es1, 3);
    RunContinues(exceptions, [], es2, 2);
    assert [x] + [y] == [x, y] && [y] + [] == [y];
    assert [x, y][2..] == [] && [x, y][1..] == [y];
  }

  /** Without interception data reads hand out everything, as plain reads do. */
  lemma {:induction false} PlainDataRun(exceptions: bool, next: seq<byte>, es: seq<RecvEvent>, calls: nat)
    ensures DataRun(exceptions, false, next, es, calls) == (Delivered(exceptions, next, es, calls), [])
    decreases calls
  {
    hide ReadSpec;
    if calls > 0 {
      var r := ReadSpec(exceptions, next, es);
      assert ReadDataSpec(exceptions, false, next, es) == DataReading([], r);
      PlainDataRun(exceptions, r.next, r.events, calls - 1);
      var d, later := ReadDataSpec(exceptions, false, next, es),
        if r.outcome.Message? || r.outcome.Idle? then DataRun(exceptions, false, r.next, r.events, calls - 1)
        else ([], []);
      assert d == DataReading([], r) && DataRun(exceptions, false, next, es, calls) == Collect(d, later);
      assert [] + later.1 == later.1;
    }
  }

  /** What is diverted: the messages that begin with the five characters of an XML declaration. */
  lemma MarkDiverts(exceptions: bool, m: Payload)
    ensures DataRun(exceptions, true, [], [Chunk(Encode(m))], 2)
            == if 5 <= |m| && m[0] == 60 && m[1] == 63 && m[2] == 120 && m[3] == 109 && m[4] == 108 then ([], [m])
               else ([m], [])
  {
    IsXmlExactly(m);
    hide Encode, IsXml;
    ReadOneChunk(exceptions, m, []);
    assert [Chunk(Encode(m))] + [] == [Chunk(Encode(m))];
    assert ReadSpec(exceptions, [], []) == Reading(HungUp, [], []);
    hide ReadSpec, DataRun;
    RunContinues(exceptions, [], [Chunk(Encode(m))], 2);
    NothingMore(exceptions, 1);
    assert [m] + [] == [m];
  }

  lemma IsXmlExactly(m: seq<byte>)
    ensures IsXml(m)
            <==> 5 <= |m| && m[0] == 60 && m[1] == 63 && m[2] == 120 && m[3] == 109 && m[4] == 108
  {
    assert 5 <= |m| ==> m[..5] == [m[0], m[1], m[2], m[3], m[4]];
  }

  /** Conservation over data reads: each message is handed out or put aside, and only XML is put aside. */
  lemma DataRunConserves(exceptions: bool, next: seq<byte>, es: seq<RecvEvent>, ms: seq<Payload>, calls: nat)
    requires Carries(next, es, ms) && |ms| + TimeOuts(es) <= calls
    ensures var (data, diverted) := DataRun(exceptions, true, next, es, calls);
            && multiset(data) + multiset(diverted) == multiset(ms)
            && forall i | 0 <= i < |diverted| :: IsXml(diverted[i])
  {
    hide DataRun, Carries, IsXml;
    DataRunExactly(exceptions, next, es, ms, calls);
    TurnsConserve(ms, Pauses(ms, |next|, es, 0), false);
  }

  lemma {:induction false} TurnsConserve(ms: seq<seq<byte>>, p: seq<bool>, behind: bool)
    requires |p| == |ms|
    ensures var (data, diverted) := Divided(ms, Turns(ms, p, behind));
            && multiset(data) + multiset(diverted) == multiset(ms)
            && forall i | 0 <= i < |diverted| :: IsXml(diverted[i])
    decreases |ms|
  {
    hide IsXml, Pick;
    if ms == [] {
      PickNothing();
    } else {
      AddFront(ms);
      TurnsConserve(ms[1..], p[1..], IsXml(ms[0]) && (behind ==> p[0]));
      PickUnfold(ms, Turns(ms, p, behind));
    }
  }

  lemma AddFront(ms: seq<seq<byte>>)
    requires ms != []
    ensures multiset(ms) == multiset{ms[0]} + multiset(ms[1..])
  {
    assert ms == [ms[0]] + ms[1..];
  }
}
