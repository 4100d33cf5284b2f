/** The client of the Motion service: a socket, the bytes left over from earlier reads, and the
    methods that read and write framed messages.  Every method is proved against Framing. */
module ClientSide {
  import opened Bytes
  import opened Framing

  datatype Peer = Peer(host: string, port: nat, description: seq<byte>, xml: seq<byte>)

  class Client {
    /** Whether the library was built to throw on errors. */
    const useExceptions: bool

    /** The environment: whether shutting the socket succeeds, what recv and send will give, and
        the bytes the peer has been sent. */
    const closes: bool
    var incoming: seq<RecvEvent>
    var outgoing: seq<SendEvent>
    var wire: seq<byte>

    var m_socket: int
    var m_host: string
    var m_port: nat
    var m_description: seq<byte>
    var m_xml_string: seq<byte>
    var m_intercept_xml: bool
    var m_nextMessage: seq<byte>

    predicate IsConnected()
      reads this
    {
      m_socket > 0
    }

    /** A closed client keeps no bytes of the connection it had. */
    ghost predicate Valid()
      reads this
    {
      !IsConnected() ==> m_nextMessage == []
    }

    /** What a client knows of its connection. */
    ghost function Known(): Peer
      reads this
    {
      Peer(m_host, m_port, m_description, m_xml_string)
    }

    ghost predicate Reset()
      reads this
    {
      m_socket == -1 && Known() == Peer("", 0, [], []) && m_nextMessage == []
    }

    constructor (useExceptions: bool, closes: bool, incoming: seq<RecvEvent>, outgoing: seq<SendEvent>, socket: int)
      ensures Valid() && this.useExceptions == useExceptions && this.closes == closes
      ensures this.incoming == incoming && this.outgoing == outgoing && wire == []
      ensures m_socket == socket && Known() == Peer("", 0, [], []) && m_nextMessage == [] && m_intercept_xml
    {
      this.useExceptions, this.closes := useExceptions, closes;
      this.incoming, this.outgoing, wire := incoming, outgoing, [];
      m_socket, m_host, m_port, m_description := socket, "", 0, [];
      m_xml_string, m_intercept_xml, m_nextMessage := [], true, [];
    }

    /** Takes the socket connected to a host and port, and reads the description the service sends first. */
    method Open(socket: int, host: string, port: nat) returns (threw: bool)
      requires Valid() && !IsConnected() && socket > 0
      modifies this
      ensures Valid()
      ensures var r := ReadSpec(useExceptions, [], old(incoming));
              && threw == Throws(r.outcome)
              && AfterRead(r, socket, Peer(host, port, Shown(r.outcome), old(m_xml_string)))
      ensures outgoing == old(outgoing) && wire == old(wire) && m_intercept_xml == old(m_intercept_xml)
    {
      m_socket, m_host, m_port := socket, host, port;
      var message;
      message, threw := ReadMessage();
      m_description := message;
    }

    method Close() returns (threw: bool)
      modifies this
      ensures old(IsConnected()) && closes ==> Reset() && !threw
      ensures !(old(IsConnected()) && closes) ==>
                && threw == useExceptions
                && m_socket == old(m_socket) && m_nextMessage == old(m_nextMessage) && Known() == old(Known())
      ensures incoming == old(incoming) && outgoing == old(outgoing) && wire == old(wire)
      ensures m_intercept_xml == old(m_intercept_xml)
    {
      threw := false;
      if IsConnected() {
        if !closes {
          return useExceptions;
        }
        m_socket := -1;
        m_host, m_port := "", 0;
        m_description := [];
        m_xml_string := [];
        m_nextMessage := [];
      } else {
        threw := useExceptions;
      }
    }

    method Receive() returns (data: seq<byte>, timedOut: bool, threw: bool)
      modifies this`incoming
      ensures !IsConnected() ==> data == [] && !timedOut && !threw && incoming == old(incoming)
      ensures IsConnected() && old(incoming) == [] ==> data == [] && !timedOut && !threw && incoming == []
      ensures IsConnected() && old(incoming) != [] ==>
                && incoming == old(incoming)[1..]
                && data == (if old(incoming)[0].Chunk? then old(incoming)[0].data else [])
                && timedOut == old(incoming)[0].TimedOut?
                && threw == (useExceptions && old(incoming)[0].Failed?)
    {
      data, timedOut, threw := [], false, false;
      if !IsConnected() || incoming == [] {
        return;
      }
      match incoming[0] {
        case Chunk(bytes) => data := bytes;
        case TimedOut => timedOut := true;
        case Interrupted =>
        case Failed => threw := useExceptions;
      }
      incoming := incoming[1..];
    }

    ghost predicate Throws(o: Outcome) {
      useExceptions && (o.RecvFailed? || o.Broken?)
    }

    /** The message a read leaves in its output. */
    ghost function Shown(o: Outcome): seq<byte> {
      match o
      case Message(payload) => payload
      case Broken(partial) => if useExceptions then partial else []
      case _ => []
    }

    /** The state after a read that began on the given open socket. */
    ghost predicate AfterRead(r: Reading, socket: int, known: Peer)
      reads this
    {
      && incoming == r.events
      && m_nextMessage == r.next
      && (if StaysOpen(useExceptions, closes, r.outcome)
          then m_socket == socket && Known() == known
          else Reset())
    }

    /** Without exceptions a protocol error clears the output and closes the client. */
    method GiveUp(message: seq<byte>) returns (shown: seq<byte>, threw: bool)
      requires IsConnected()
      modifies this
      ensures threw == useExceptions
      ensures shown == if useExceptions then message else []
      ensures useExceptions || !closes ==>
                m_socket == old(m_socket) && m_nextMessage == old(m_nextMessage) && Known() == old(Known())
      ensures !useExceptions && closes ==> Reset()
      ensures incoming == old(incoming) && outgoing == old(outgoing) && wire == old(wire)
      ensures m_intercept_xml == old(m_intercept_xml)
    {
      if useExceptions {
        return message, true;
      }
      shown := [];
      threw := Close();
    }

    /** Reads one message (operator>>). */
    method ReadMessage() returns (message: seq<byte>, threw: bool)
      requires Valid()
      modifies this
      ensures Valid()
      ensures outgoing == old(outgoing) && wire == old(wire) && m_intercept_xml == old(m_intercept_xml)
      ensures !old(IsConnected()) ==> message == [] && !threw && incoming == old(incoming) && m_nextMessage == []
                                      && m_socket == old(m_socket) && Known() == old(Known())
      ensures old(IsConnected()) ==>
                var r := ReadSpec(useExceptions, old(m_nextMessage), old(incoming));
                && AfterRead(r, old(m_socket), old(Known()))
                && message == Shown(r.outcome)
                && threw == Throws(r.outcome)
      ensures old(IsConnected()) && old(m_nextMessage) == []
              && (old(incoming) == [] || !old(incoming)[0].Chunk? || old(incoming)[0].data == []) ==>
                && message == [] && m_nextMessage == []
                && incoming == (if old(incoming) == [] then [] else old(incoming)[1..])
                && threw == (useExceptions && old(incoming) != [] && old(incoming)[0].Failed?)
                && (closes && !threw && !(old(incoming) != [] && old(incoming)[0].TimedOut?) ==>
                      m_socket == -1 && m_host == "" && m_port == 0 && m_description == [] && m_xml_string == [])
                && (!closes || threw || (old(incoming) != [] && old(incoming)[0].TimedOut?) ==>
                      m_socket == old(m_socket) && m_host == old(m_host) && m_port == old(m_port)
                      && m_description == old(m_description) && m_xml_string == old(m_xml_string))
    {
      message, threw := [], false;
      var toRecv: seq<byte>, timedOut := [], false;
      ghost var es0 := incoming;
      if m_nextMessage != [] {
        toRecv := m_nextMessage;
        m_nextMessage := [];
      } else {
        toRecv, timedOut, threw := Receive();
        if IsConnected() {
          FirstReceived(es0);
        }
        if threw {
          return;
        }
      }
      if toRecv == [] {
        if !timedOut {
          var _ := Close();
        }
        return;
      }
      message, threw := ReadFrame(toRecv);
    }

    /** A read that has kept nothing is one that has kept the first chunk. */
    lemma FirstReceived(es: seq<RecvEvent>)
      ensures es != [] && es[0].Chunk? && es[0].data != [] ==>
                ReadSpec(useExceptions, [], es) == ReadSpec(useExceptions, es[0].data, es[1..])
    {
      if es != [] && es[0].Chunk? {
        assert [] + es[0].data == es[0].data;
      }
    }

    /** The rest of a read, once its first bytes are in. */
    method ReadFrame(first: seq<byte>) returns (message: seq<byte>, threw: bool)
      requires IsConnected() && m_nextMessage == [] && first != []
      modifies this
      ensures Valid()
      ensures outgoing == old(outgoing) && wire == old(wire) && m_intercept_xml == old(m_intercept_xml)
      ensures var r := ReadSpec(useExceptions, first, old(incoming));
              && AfterRead(r, old(m_socket), old(Known()))
              && message == Shown(r.outcome)
              && threw == Throws(r.outcome)
    {
      message, threw := [], false;
      var toRecv, timedOut := first, false;

      // Three extra receives are always enough for the header: each brings at least one byte.
      var count := 0;
      while |toRecv| < HEADER_SIZE && count < HEADER_SIZE - 1
        invariant IsConnected() && m_socket == old(m_socket) && m_nextMessage == [] && !threw
        invariant Known() == old(Known())
        invariant outgoing == old(outgoing) && wire == old(wire) && m_intercept_xml == old(m_intercept_xml)
        invariant 0 <= count < |toRecv|
        invariant Gather(toRecv, incoming, HEADER_SIZE) == Gather(first, old(incoming), HEADER_SIZE)
        decreases HEADER_SIZE - count
      {
        var temp;
        temp, timedOut, threw := Receive();
        if threw {
          return;
        }
        if temp == [] {
          message, threw := GiveUp([]);
          return;
        }
        toRecv := toRecv + temp;
        count := count + 1;
      }
      assert |toRecv| >= HEADER_SIZE;
      var length := FromNetworkOrder(toRecv[..HEADER_SIZE]);
      if length == 0 || length > MAXIMUM_MESSAGE_LENGTH {
        message, threw := GiveUp([]);
        return;
      }
      BodyIsRead(first, old(incoming), toRecv, incoming);
      message, threw := ReadBody(toRecv, length);
    }

    /** The loop over the chunks of a payload; a receive that brings nothing interrupts it. */
    method ReadChunks(toRecv: seq<byte>, length: nat)
      returns (message: seq<byte>, following: seq<byte>, complete: bool, threw: bool)
      requires IsConnected() && HEADER_SIZE <= |toRecv| < HEADER_SIZE + length
      modifies this`incoming
      ensures var need := HEADER_SIZE + length;
              var (got, rest) := Gather(toRecv, old(incoming), need);
              && HEADER_SIZE <= |got| && complete == (need <= |got|)
              && (complete ==>
                    && message == got[HEADER_SIZE..need] && following == got[need..]
                    && incoming == rest && !threw)
              && (!complete ==>
                    && message == got[HEADER_SIZE..] && incoming == AfterIdleRecv(rest)
                    && (threw ==> useExceptions))
    {
      hide Gather;
      ghost var got, need := toRecv, HEADER_SIZE + length;
      message, following, complete, threw := toRecv[HEADER_SIZE..], [], true, false;
      while |message| < length
        invariant !threw && complete && HEADER_SIZE <= |got|
        invariant Gather(got, incoming, need) == Gather(toRecv, old(incoming), need)
        invariant message == got[HEADER_SIZE..Min(|got|, need)]
        invariant need <= |got| ==> following == got[need..]
        decreases |incoming|, length - |message|
      {
        ghost var es0 := incoming;
        var nextChunk, timedOut;
        nextChunk, timedOut, threw := Receive();
        if nextChunk == [] {
          GatherStops(got, es0, need);
          complete := false;
          return;
        }
        GatherContinues(got, es0, need);
        var endMessage := length - |message|;
        message := message + nextChunk[..Min(endMessage, |nextChunk|)];
        following := nextChunk[Min(endMessage, |nextChunk|)..];
        got := got + nextChunk;
      }
      GatherStops(got, incoming, need);
    }

    /** The rest of a read, once the header is in: the payload and what follows it. */
    method ReadBody(toRecv: seq<byte>, length: nat) returns (message: seq<byte>, threw: bool)
      requires IsConnected() && m_nextMessage == []
      requires HeaderAtFront(toRecv) && length == FrameLength(toRecv) - HEADER_SIZE
      modifies this
      ensures outgoing == old(outgoing) && wire == old(wire) && m_intercept_xml == old(m_intercept_xml)
      ensures var r := BodySpec(toRecv, old(incoming));
              && AfterRead(r, old(m_socket), old(Known()))
              && message == Shown(r.outcome)
              && threw == Throws(r.outcome)
    {
      hide FromNetworkOrder;
      threw := false;
      message := toRecv[HEADER_SIZE..Min(|toRecv|, HEADER_SIZE + length)];
      if |message| < length {
        var following, complete;
        message, following, complete, threw := ReadChunks(toRecv, length);
        if !complete {
          if threw {
            return;
          }
          message, threw := GiveUp(message);
          return;
        }
        if following != [] {
          m_nextMessage := following;
        }
      } else {
        var endMessage := length + HEADER_SIZE;
        if |toRecv| > endMessage {
          m_nextMessage := toRecv[endMessage..];
        }
      }
    }

    /** What the rest of a read must do. */
    ghost function BodySpec(toRecv: seq<byte>, es: seq<RecvEvent>): Reading
      requires HeaderAtFront(toRecv)
    {
      var need := FrameLength(toRecv);
      var (got, rest) := Gather(toRecv, es, need);
      GatherExtends(toRecv, es, need);
      if need <= |got| then Reading(Message(got[HEADER_SIZE..need]), got[need..], rest)
      else Reading(Broken(got[HEADER_SIZE..]), [], AfterIdleRecv(rest))
    }

    lemma BodyIsRead(next: seq<byte>, es: seq<RecvEvent>, toRecv: seq<byte>, rest: seq<RecvEvent>)
      requires Gather(next, es, HEADER_SIZE) == (toRecv, rest) && HeaderAtFront(toRecv)
      ensures BodySpec(toRecv, rest) == ReadSpec(useExceptions, next, es)
    {
      var need := FrameLength(toRecv);
      var got := Gather(toRecv, rest, need).0;
      GatherExtends(toRecv, rest, need);
      assert got[..HEADER_SIZE] == toRecv[..HEADER_SIZE];
      assert Taken(next, es) == Gather(toRecv, rest, need);
    }

    /** One system send: the number accepted, as an unsigned count. */
    method Send(data: seq<byte>) returns (sent: nat, threw: bool)
      requires |data| < UNSIGNED_RANGE
      modifies this`outgoing, this`wire
      ensures !IsConnected() ==> sent == 0 && !threw && outgoing == old(outgoing) && wire == old(wire)
      ensures IsConnected() ==>
                && sent == SendResult(useExceptions, old(outgoing), |data|)
                && threw == (useExceptions && old(outgoing) != [] && old(outgoing)[0].SendFailed?)
                && outgoing == LaterSends(old(outgoing))
                && wire == old(wire) + Transmitted(old(outgoing), data, 0)
    {
      sent, threw := 0, false;
      if !IsConnected() || outgoing == [] {
        return;
      }
      match outgoing[0] {
        case Accepted(n) =>
          sent := Min(n, |data|);
          wire := wire + data[..sent];
        case SendFailed =>
          if useExceptions {
            threw := true;
          } else {
            sent := UNSIGNED_RANGE - 1;
          }
        case _ =>
      }
      outgoing := outgoing[1..];
    }

    /** The state after a write that began on the given open socket. */
    ghost predicate AfterWrite(stays: bool, socket: int, known: Peer, next: seq<byte>)
      reads this
    {
      if stays then m_socket == socket && Known() == known && m_nextMessage == next
      else Reset()
    }

    /** Writes one message (operator<<). */
    method WriteMessage(message: seq<byte>) returns (threw: bool)
      requires Valid()
      modifies this
      ensures Valid()
      ensures incoming == old(incoming) && m_intercept_xml == old(m_intercept_xml)
      ensures message == [] ==> !threw
      ensures !old(IsConnected()) && message != [] ==> threw == useExceptions
      ensures !old(IsConnected()) || message == [] ==>
                && wire == old(wire) && outgoing == old(outgoing)
                && AfterWrite(true, old(m_socket), old(Known()), old(m_nextMessage))
      ensures old(IsConnected()) && |message| > 65535 ==>
                && threw == useExceptions && wire == old(wire) && outgoing == old(outgoing)
                && AfterWrite(useExceptions || !closes, old(m_socket), old(Known()), old(m_nextMessage))
      ensures old(IsConnected()) && 0 < |message| <= 65535 ==>
                var w := WriteSpec(useExceptions, Encode(message), 0, old(outgoing));
                && wire == old(wire) + w.wire && outgoing == w.events && threw == (useExceptions && !w.complete)
                && AfterWrite(w.complete || useExceptions || !closes, old(m_socket), old(Known()), old(m_nextMessage))
    {
      threw := false;
      if message == [] {
        return;
      }
      // Without a connection the first send would give 0, which ends the same way.
      if |message| > MAXIMUM_MESSAGE_LENGTH || !IsConnected() {
        if useExceptions {
          return true;
        }
        threw := Close();
        return;
      }
      var toSend := Encode(message);
      var complete;
      complete, threw := SendAll(toSend);
      if !complete && !threw {
        var unused;
        unused, threw := GiveUp([]);
      }
    }

    /** Sends until every byte is counted as gone, or a send gives nothing. */
    method SendAll(toSend: seq<byte>) returns (complete: bool, threw: bool)
      requires IsConnected() && |toSend| < UNSIGNED_RANGE
      modifies this`outgoing, this`wire
      ensures var w := WriteSpec(useExceptions, toSend, 0, old(outgoing));
              && wire == old(wire) + w.wire && outgoing == w.events
              && complete == w.complete && threw == (useExceptions && !w.complete)
    {
      hide WriteSpec;
      threw := false;
      ghost var spec := WriteSpec(useExceptions, toSend, 0, outgoing);
      var bytes: nat := 0;
      while bytes < |toSend|
        invariant bytes < UNSIGNED_RANGE && !threw
        invariant old(wire) + spec.wire == wire + WriteSpec(useExceptions, toSend, bytes, outgoing).wire
        invariant spec.complete == WriteSpec(useExceptions, toSend, bytes, outgoing).complete
        invariant spec.events == WriteSpec(useExceptions, toSend, bytes, outgoing).events
        decreases |outgoing|
      {
        ghost var wire0, es0, bytes0 := wire, outgoing, bytes;
        var sent;
        sent, threw := Send(toSend[bytes..]);
        if threw || sent == 0 {
          assert wire == wire0 + [];
          WriteStops(useExceptions, toSend, bytes, es0);
          return false, useExceptions;
        }
        bytes := (bytes + sent) % UNSIGNED_RANGE;
        assert Transmitted(es0, toSend[bytes0..], 0) == Transmitted(es0, toSend, bytes0);
        WriteContinues(useExceptions, toSend, bytes0, es0);
        assert wire0 + (Transmitted(es0, toSend, bytes0) + WriteSpec(useExceptions, toSend, bytes, outgoing).wire)
            == wire + WriteSpec(useExceptions, toSend, bytes, outgoing).wire;
      }
      WriteStops(useExceptions, toSend, bytes, outgoing);
      complete := bytes == |toSend|;
      threw := useExceptions && !complete;
    }

    /** Waits for one message and drops it; an XML message is kept aside. */
    method WaitForData() returns (result: bool, threw: bool)
      requires Valid()
      modifies this
      ensures Valid()
      ensures outgoing == old(outgoing) && wire == old(wire) && m_intercept_xml == old(m_intercept_xml)
      ensures !old(IsConnected()) ==>
                && !result && threw == useExceptions && incoming == old(incoming)
                && AfterWrite(true, old(m_socket), old(Known()), old(m_nextMessage))
      ensures old(IsConnected()) ==>
                var r := ReadSpec(useExceptions, old(m_nextMessage), old(incoming));
                && result == r.outcome.Message?
                && threw == Throws(r.outcome)
                && AfterRead(r, old(m_socket),
                             if r.outcome.Message? && IsXml(r.outcome.payload)
                             then old(Known()).(xml := r.outcome.payload) else old(Known()))
    {
      result, threw := false, false;
      if !IsConnected() {
        return false, useExceptions;
      }
      ReadAccounts(useExceptions, m_nextMessage, incoming);
      var message;
      message, threw := ReadMessage();
      if threw {
        return;
      }
      if IsXml(message) {
        m_xml_string := message;
      }
      if message != [] {
        result := true;
      }
    }

    /** Reads the next data message, putting an XML message in front of it aside. */
    method ReadData() returns (data: seq<byte>, result: bool, threw: bool)
      requires Valid()
      modifies this
      ensures Valid()
      ensures outgoing == old(outgoing) && wire == old(wire) && m_intercept_xml == old(m_intercept_xml)
      ensures !old(IsConnected()) ==>
                && data == [] && !result && threw == useExceptions && incoming == old(incoming)
                && AfterWrite(true, old(m_socket), old(Known()), old(m_nextMessage))
      ensures old(IsConnected()) ==>
                var d := ReadDataSpec(useExceptions, m_intercept_xml, old(m_nextMessage), old(incoming));
                && result == d.last.outcome.Message?
                && data == (if result then d.last.outcome.payload else [])
                && threw == Throws(d.last.outcome)
                && AfterRead(d.last, old(m_socket),
                             if d.diverted != [] then old(Known()).(xml := d.diverted[0]) else old(Known()))
    {
      data, result, threw := [], false, false;
      if !IsConnected() {
        return [], false, useExceptions;
      }
      ghost var first := ReadSpec(useExceptions, m_nextMessage, incoming);
      ReadAccounts(useExceptions, m_nextMessage, incoming);
      var message;
      message, threw := ReadMessage();
      if threw {
        return;
      }
      if m_intercept_xml && IsXml(message) {
        m_xml_string := message;
        ReadAccounts(useExceptions, m_nextMessage, incoming);
        message, threw := ReadMessage();
        if threw {
          return;
        }
      }
      if message != [] {
        data, result := message, true;
      }
    }

    /** Writes a message; the result says only that there was a connection to write to. */
    method WriteData(data: seq<byte>) returns (result: bool, threw: bool)
      requires Valid()
      modifies this
      ensures Valid()
      ensures incoming == old(incoming) && m_intercept_xml == old(m_intercept_xml)
      ensures result == (data != [] && old(IsConnected()) && !threw)
      ensures data == [] || !old(IsConnected()) ==>
                && threw == (data != [] && useExceptions) && wire == old(wire) && outgoing == old(outgoing)
                && AfterWrite(true, old(m_socket), old(Known()), old(m_nextMessage))
      ensures old(IsConnected()) && |data| > 65535 ==>
                && threw == useExceptions && wire == old(wire) && outgoing == old(outgoing)
                && AfterWrite(useExceptions || !closes, old(m_socket), old(Known()), old(m_nextMessage))
      ensures old(IsConnected()) && 0 < |data| <= 65535 ==>
                var w := WriteSpec(useExceptions, Encode(data), 0, old(outgoing));
                && wire == old(wire) + w.wire && outgoing == w.events && threw == (useExceptions && !w.complete)
                && AfterWrite(w.complete || useExceptions || !closes, old(m_socket), old(Known()), old(m_nextMessage))
    {
      result, threw := false, false;
      if data == [] {
        return;
      }
      if !IsConnected() {
        return false, useExceptions;
      }
      threw := WriteMessage(data);
      result := !threw;
    }
  }
}
