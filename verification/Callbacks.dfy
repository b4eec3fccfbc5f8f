/** The callbacks of a server connection as methods on an object over two shared transports. The object
    holds what the code holds; the run of the state machine it has gone through is a ghost, so that what
    is proved of every run is proved of the object. */
module Callbacks {
  import opened Packets
  import opened Base
  import Relay
  import Server

  /** One end of a transport. `heard` and `wire` are all bytes read from it and written to it. */
  class Transport {
    var open: bool
    var broken: bool
    ghost var heard: bytes
    ghost var wire: bytes
    ghost var dropped: bytes

    constructor ()
      ensures open && !broken && heard == wire == dropped == []
    {
      open, broken := true, false;
      heard, wire, dropped := [], [], [];
    }

    /** The transport is the end `p` of a relay, behind a handshake. */
    ghost predicate Is(p: Relay.Port, read: bytes, written: bytes)
      reads this
    {
      open == p.open && broken == p.broken && dropped == p.dropped && heard == read + p.got && wire == written + p.put
    }

    /** Closing twice is the same as closing once. */
    method StartClose()
      modifies this`open
      ensures !open
    {
      open := false;
    }

    /** A handshake read completes. */
    ghost method Hear(data: bytes, p: Relay.Port, read: bytes, written: bytes)
      requires Is(p, read, written) && p.got == []
      modifies this`heard
      ensures Is(p, read + data, written)
    {
      heard := heard + data;
    }
  }

  /** One invocation of a request's callback; `local` is the local address the transport reports. */
  datatype Call = Call(error: nat, transport: Transport?, local: Address)

  function Reported(call: Call): Outcome {
    Outcome(call.error, if call.transport == null then None else Some(call.local))
  }

  // ----- a connection -----

  /** `upHeard` and `upWire` are what the upstream transport had carried when it was handed over. */
  class Connection {
    const downstream: Transport
    var upstream: Transport?
    var local: Address
    var phase: Server.Phase
    var unsent: bytes
    var upward: Relay.Direction
    var downward: Relay.Direction
    ghost var upHeard: bytes
    ghost var upWire: bytes
    ghost var run: seq<Server.Server>

    /** The upstream transport was handed over as `o` says and is the end `p` of the relay. */
    ghost predicate HasUpstream(p: Relay.Port, o: Option<Outcome>)
      reads this`upstream, this`local, this`upHeard, this`upWire, upstream
    {
      if upstream == null then p == Server.ABSENT && (o.Some? && o.value.error == 0 ==> o.value.transport.None?)
      else upstream.Is(p, upHeard, upWire) && o == Some(Outcome(0, Some(local)))
    }

    /** The object and its transports are in state `s`. */
    ghost predicate Matches(s: Server.Server)
      reads this, downstream, upstream
    {
      && phase == s.phase && unsent == s.unsent && upward == s.pair.upward && downward == s.pair.downward
      && downstream.Is(s.pair.down, s.offer + s.query, s.sent)
      && upstream != downstream && HasUpstream(s.pair.up, s.outcome)
    }

    ghost predicate Valid()
      reads this, downstream, upstream
    {
      Server.IsRun(run) && !phase.Idle? && Matches(State())
    }

    ghost function State(): Server.Server
      reads this
    {
      if run == [] then Server.INIT else run[|run| - 1]
    }

    /** An accepted connection, about to read its method list. */
    constructor (transport: Transport)
      requires transport.open && !transport.broken && transport.heard == transport.wire == transport.dropped == []
      ensures Valid() && downstream == transport && upstream == null && |run| == 2
    {
      downstream := transport;
      upstream, local := null, ANY_ADDRESS;
      upHeard, upWire := [], [];
      phase := Server.ReadMethods(MethodsHead);
      unsent := [];
      upward, downward := Relay.Stopped, Relay.Stopped;
      new;
      Server.InitialRun();
      run := [Server.INIT];
      run := Server.Extend(run, Server.Accept);
    }

    method StartWriteTo(purpose: Server.Purpose, p: Packet)
      modifies this`phase, this`unsent
      ensures phase == Server.Sending(purpose) && unsent == Serialize(p)
    {
      unsent := Serialize(p);
      phase := Server.Sending(purpose);
    }

    method ResponseError(code: byte)
      modifies this`phase, this`unsent
      ensures phase == Server.Sending(Server.Failure) && unsent == Serialize(Response(VERSION, code, ANY_ADDRESS))
    {
      StartWriteTo(Server.Failure, Response(VERSION, code, ANY_ADDRESS));
    }

    method OnAuthMethods(data: bytes, ghost s: Server.Server)
      requires Matches(s) && phase.ReadMethods? && Server.Enabled(s, Server.Receive(data))
      requires Parses(phase.reader, MethodsKind) && s.query == s.pair.down.got == []
      modifies this`phase, this`unsent, downstream`heard
      ensures Matches(Server.Apply(s, Server.Receive(data)))
    {
      FeedParses(phase.reader, data, MethodsKind);
      MethodsFrame(s, data);
      hide Serialize, Feed, Server.Apply, Server.Enabled, HasUpstream, Transport.Is;
      var r := Feed(phase.reader, data);
      downstream.Hear(data, s.pair.down, s.offer + s.query, s.sent);
      assert s.offer + s.query + data == s.offer + data + [];
      if !r.Got? {
        phase := Server.ReadMethods(r);
      } else if NO_AUTH !in r.packet.methods {
        StartWriteTo(Server.Reject, Select(VERSION, NOT_SUPPORTED));
      } else {
        StartWriteTo(Server.Acknowledge, Select(VERSION, NO_AUTH));
      }
    }

    method OnRequest(data: bytes, ghost s: Server.Server)
      requires Matches(s) && phase.ReadRequest? && Server.Enabled(s, Server.Receive(data))
      requires Parses(phase.reader, RequestKind) && s.pair.down.got == []
      modifies this`phase, this`unsent, downstream`heard
      ensures Matches(Server.Apply(s, Server.Receive(data)))
    {
      FeedParses(phase.reader, data, RequestKind);
      RequestFrame(s, data);
      hide Serialize, Feed, Server.Apply, Server.Enabled, HasUpstream, Transport.Is;
      var r := Feed(phase.reader, data);
      downstream.Hear(data, s.pair.down, s.offer + s.query, s.sent);
      assert s.offer + s.query + data == s.offer + (s.query + data);
      if r.Silent? {
        phase := Server.Phase.Silent;
      } else if r.Undefined? {
        phase := Server.Crashed;
      } else if !r.Got? {
        phase := Server.ReadRequest(r);
      } else if r.packet.command != CONNECT {
        ResponseError(COMMAND_NOT_SUPPORTED);
      } else {
        phase := Server.AwaitUpstream;
      }
    }

    /** A failed read or write, or a written rejection or error response. */
    method Close(ghost s: Server.Server, ghost e: Server.Event)
      requires Matches(s) && Server.Enabled(s, e)
      requires e.ReceiveFails? || e.PutFails? || (e.PutAll? && (phase.purpose.Reject? || phase.purpose.Failure?))
      modifies this`phase, downstream`open, upstream
      ensures Matches(Server.Apply(s, e))
    {
      var isSuccess := phase == Server.Sending(Server.Success);
      downstream.StartClose();
      if isSuccess && upstream != null {
        upstream.StartClose();
      }
      phase := Server.Closed;
    }

    method OnWroteSome(n: nat, ghost s: Server.Server)
      requires Matches(s) && Server.Enabled(s, Server.PutSome(n)) && s.pair.down.put == []
      modifies this`unsent, downstream`wire
      ensures Matches(Server.Apply(s, Server.PutSome(n)))
    {
      downstream.wire := downstream.wire + unsent[..n];
      unsent := unsent[n..];
    }

    method OnWritten(ghost s: Server.Server)
      requires Matches(s) && Server.Enabled(s, Server.PutAll)
      modifies this`phase, this`upward, this`downward, downstream`open, upstream
      ensures Matches(Server.Apply(s, Server.PutAll))
    {
      match phase.purpose {
        case Acknowledge => phase := Server.ReadRequest(Head(true));
        case Success => phase, upward, downward := Server.Relaying, Relay.Reading, Relay.Reading;
        case _ => Close(s, Server.PutAll);
      }
    }

    /** A completion in either relay direction; the directions share both transports. */
    method OnRelay(isUpward: bool, e: Relay.Event, ghost s: Server.Server)
      requires Matches(s) && Server.Enabled(s, Server.Relayed(isUpward, e)) && upstream != null
      modifies this`upward, this`downward, downstream, upstream
      ensures Matches(Server.Apply(s, Server.Relayed(isUpward, e)))
    {
      hide Relay.Apply, Relay.Enabled, Transport.Is;
      if isUpward {
        upward := Turn(downstream, upstream, upward, e, Relay.WayOf(s.pair, true),
                       s.offer + s.query, s.sent, upHeard, upWire);
      } else {
        downward := Turn(upstream, downstream, downward, e, Relay.WayOf(s.pair, false),
                         upHeard, upWire, s.offer + s.query, s.sent);
      }
    }

    /** One completion of the loop that reads from `from` and writes to `to`; the byte strings are the
        handshakes on the two transports. */
    static method Turn(from: Transport, to: Transport, state: Relay.Direction, e: Relay.Event, ghost w: Relay.Way,
                       ghost fromRead: bytes, ghost fromWritten: bytes, ghost toRead: bytes, ghost toWritten: bytes)
      returns (next: Relay.Direction)
      requires from != to && state == w.state && Relay.Enabled(w, e)
      requires from.Is(w.from, fromRead, fromWritten) && to.Is(w.to, toRead, toWritten)
      modifies from, to
      ensures var v := Relay.Apply(w, e);
        next == v.state && from.Is(v.from, fromRead, fromWritten) && to.Is(v.to, toRead, toWritten)
    {
      match e {
        case TakeSome(data) =>
          from.heard := from.heard + data;
          next := Relay.ReadDone(data);
        case TakeNone => next := Relay.ReadFailed;
        case PutSome(n) =>
          to.wire := to.wire + state.left[..n];
          next := Relay.Writing(state.left[n..]);
        case PutAll => next := Relay.WriteDone;
        case PutFails =>
          to.broken := true;
          to.dropped := to.dropped + state.left;
          next := Relay.WriteDone;
        case Callback =>
          if state.ReadDone? {
            next := Relay.Writing(state.buffer);
          } else if state.WriteDone? {
            next := Relay.Reading;
          } else {
            from.StartClose();
            to.StartClose();
            next := Relay.Stopped;
          }
      }
    }

    /** Adds the step just taken to the run. */
    ghost method Record(e: Server.Event)
      requires Server.IsRun(run) && Server.Enabled(State(), e) && Matches(Server.Apply(State(), e))
      modifies this`run
      ensures Valid() && run == old(run) + [Server.Apply(old(State()), e)]
    {
      NeverIdleAgain(State(), e);
      hide Server.Apply, Server.Enabled, Server.Next, HasUpstream;
      run := Server.Extend(run, e);
    }

    /** Any completion but the upstream's callback, dispatched to its handler: the object stays valid and
        its run grows by exactly that step. */
    method Complete(e: Server.Event)
      requires Valid() && Server.Enabled(State(), e) && !e.Answer?
      modifies this, downstream, upstream
      ensures Valid() && upstream == old(upstream) && run == old(run) + [Server.Apply(old(State()), e)]
    {
      ghost var s := State();
      Facts();
      hide Server.Apply, Server.IsRun, Matches, Parses, Relay.Enabled;
      if e.Receive? && phase.ReadMethods? {
        OnAuthMethods(e.data, s);
      } else if e.Receive? {
        OnRequest(e.data, s);
      } else if e.PutSome? {
        OnWroteSome(e.count, s);
      } else if e.PutAll? {
        OnWritten(s);
      } else if e.Relayed? {
        OnRelay(e.isUpward, e.event, s);
      } else {
        Close(s, e);
      }
      Record(e);
    }

    /** Takes an upstream transport over. */
    method Adopt(call: Call)
      requires call.error == 0 && call.transport != null && call.transport != downstream
      requires call.transport.open && !call.transport.broken && call.transport.dropped == []
      modifies this`upstream, this`local, this`upHeard, this`upWire
      ensures upstream == call.transport && local == call.local && upHeard == upstream.heard && upWire == upstream.wire
      ensures HasUpstream(Relay.FRESH, Some(Reported(call)))
    {
      upstream, local := call.transport, call.local;
      upHeard, upWire := upstream.heard, upstream.wire;
    }

    /** Answers the request as the upstream factory's callback says. */
    method Answer(call: Call, ghost s: Server.Server)
      requires Matches(s) && phase.AwaitUpstream? && upstream == null
      requires call.transport != null ==>
        call.transport != downstream && call.transport.open && !call.transport.broken && call.transport.dropped == []
      modifies this`phase, this`unsent, this`upstream, this`local, this`upHeard, this`upWire
      ensures Matches(Server.Apply(s, Server.Answer(Reported(call))))
      ensures upstream == (if call.error == 0 then call.transport else null)
      ensures upstream != null ==> local == call.local && upHeard == upstream.heard && upWire == upstream.wire
    {
      AnswerFrame(s, Reported(call));
      hide Serialize, Server.Apply, Transport.Is;
      if call.error != 0 {
        ResponseError(CONNECTION_REFUSED);
      } else if call.transport == null {
        phase := Server.Crashed;
      } else {
        Adopt(call);
        StartWriteTo(Server.Success, Response(VERSION, SUCCESS, local));
      }
    }

    /** The upstream factory called back. */
    method OnUpstream(call: Call)
      requires Valid() && phase.AwaitUpstream?
      requires call.transport != null ==>
        call.transport != downstream && call.transport.open && !call.transport.broken && call.transport.dropped == []
      modifies this
      ensures Valid() && upstream == (if call.error == 0 then call.transport else null)
      ensures upstream != null ==> local == call.local && upHeard == upstream.heard && upWire == upstream.wire
      ensures run == old(run) + [Server.Apply(old(State()), Server.Answer(Reported(call)))]
    {
      Facts();
      hide Server.IsRun, Server.Apply, Matches;
      Answer(call, State());
      Record(Server.Answer(Reported(call)));
    }

    /** What the handlers rely on in each phase. */
    lemma Facts()
      requires Valid()
      ensures Matches(State()) && phase == State().phase
      ensures phase.ReadMethods? ==> Parses(phase.reader, MethodsKind) && State().query == []
      ensures phase.ReadRequest? ==> Parses(phase.reader, RequestKind)
      ensures phase.AwaitUpstream? ==> State().outcome.None?
      ensures phase.AwaitUpstream? ==> upstream == null
      ensures phase.Relaying? ==> upstream != null
      ensures !phase.Relaying? ==> State().pair.down.got == State().pair.down.put == []
    {
      hide Server.Ok, Server.Next;
      Server.RunOk(run);
      StateFacts(State());
    }

    // ----- what holds of the object -----

    /** Before relaying, what was written downstream is a prefix of at most one selection and one response;
        afterwards it is an accepting selection, a success response that reports the upstream's local
        address, and a prefix of what was read from the upstream since it was handed over. */
    lemma WroteInTurn()
      requires Valid()
      ensures !phase.Relaying? ==>
        && downstream.wire <= Stream(State().said) && |State().said| <= 2
        && (|State().said| == 2 ==> State().said[0] == Select(VERSION, NO_AUTH) && State().said[1].Response?)
      ensures phase.Relaying? ==>
        && upstream != null
        && exists payload :: upHeard + payload <= upstream.heard && downstream.wire ==
             Serialize(Select(VERSION, NO_AUTH)) + Serialize(Response(VERSION, SUCCESS, local)) + payload
    {
      hide Serialize, Stream, Server.Next, Server.Ok;
      var s := State();
      Server.RunOk(run);
      StateFacts(s);
      Server.SpeaksInTurn(run);
      if phase.Relaying? {
        RelayFacts(s);
        Server.RelaysAfterSuccess(run);
        assert upHeard + s.pair.down.put <= upstream.heard;
      } else {
        assert s.sent + [] == s.sent;
      }
    }

    /** What was written upstream since it was handed over is a prefix of what was read downstream behind
        the method list and the request, which asked for a CONNECT; the rest was dropped or is in the
        buffer. */
    lemma WroteUpstream()
      requires Valid() && phase.Relaying?
      ensures upstream != null
      ensures var s := State();
        && Server.OffersNoAuth(s) && Server.WantsConnect(s)
        && Reaches(MethodsHead, s.offer, Got(s.hello.value)) && Reaches(Head(true), s.query, Got(s.request.value))
        && exists payload :: upstream.wire == upWire + payload
             && downstream.heard == s.offer + s.query + (payload + (upstream.dropped + Relay.InFlight(upward)))
    {
      hide Serialize, Reaches, Stream, Server.Next, Server.Ok;
      var s := State();
      Server.RunOk(run);
      StateFacts(s);
      RelayFacts(s);
      Server.AsksAfterHandshake(run);
      assert upstream.wire == upWire + s.pair.up.put;
    }

    /** An object with nothing pending has closed its upstream transport, if it has one, and its downstream
        transport except exactly after an unknown address type, a completed read behind a wrapping
        domain length or a null transport. */
    lemma ClosedAtRest()
      requires Valid() && Server.AtRest(State())
      ensures upstream != null ==> !upstream.open
      ensures downstream.open <==>
        UnknownKind(State().query) || Server.ReadsWrapped(run) || State().outcome == Some(Outcome(0, None))
    {
      hide Server.ReadsWrapped, Server.Next, Server.AtRest, UnknownKind;
      Server.RestIsClosed(run);
    }
  }

  lemma NeverIdleAgain(s: Server.Server, e: Server.Event)
    requires Server.Enabled(s, e)
    ensures !Server.Apply(s, e).phase.Idle?
  {
    hide Serialize, Feed, Relay.Apply, Relay.WithWay, Relay.Enabled;
  }

  /** What the machine does on a method list and what it leaves alone. */
  lemma MethodsFrame(s: Server.Server, data: bytes)
    requires s.phase.ReadMethods? && Server.Enabled(s, Server.Receive(data))
    requires Parses(s.phase.reader, MethodsKind)
    ensures var r, t := Feed(s.phase.reader, data), Server.Apply(s, Server.Receive(data));
      && t.offer == s.offer + data && t.query == s.query
      && t.sent == s.sent && t.outcome == s.outcome && t.pair == s.pair
      && (!r.Got? ==> t.phase == Server.ReadMethods(r) && t.unsent == s.unsent)
      && (r.Got? && r.packet.Methods? ==>
            var offered := NO_AUTH in r.packet.methods;
            && t.phase == Server.Sending(if offered then Server.Acknowledge else Server.Reject)
            && t.unsent == Serialize(Select(VERSION, if offered then NO_AUTH else NOT_SUPPORTED)))
  {
    FeedParses(s.phase.reader, data, MethodsKind);
    hide Serialize, Feed;
  }

  /** What the machine does on a request and what it leaves alone. */
  lemma RequestFrame(s: Server.Server, data: bytes)
    requires s.phase.ReadRequest? && Server.Enabled(s, Server.Receive(data))
    requires Parses(s.phase.reader, RequestKind)
    ensures var r, t := Feed(s.phase.reader, data), Server.Apply(s, Server.Receive(data));
      && t.offer == s.offer && t.query == s.query + data
      && t.sent == s.sent && t.outcome == s.outcome && t.pair == s.pair
      && t.phase == (match r
           case Silent => Server.Phase.Silent
           case Undefined => Server.Crashed
           case Got(packet) =>
             if packet.Request? && packet.command == CONNECT then Server.AwaitUpstream
             else Server.Sending(Server.Failure)
           case _ => Server.ReadRequest(r))
      && t.unsent == (if t.phase.Sending? then Serialize(Response(VERSION, COMMAND_NOT_SUPPORTED, ANY_ADDRESS))
                      else s.unsent)
  {
    FeedParses(s.phase.reader, data, RequestKind);
    hide Serialize, Feed;
  }

  /** What the machine does with the upstream's answer and what it leaves alone. */
  lemma AnswerFrame(s: Server.Server, o: Outcome)
    requires s.phase.AwaitUpstream?
    ensures var t := Server.Apply(s, Server.Answer(o));
      && t.offer == s.offer && t.query == s.query && t.sent == s.sent && t.outcome == Some(o)
      && t.pair == (if o.error == 0 && o.transport.Some? then s.pair.(up := Relay.FRESH) else s.pair)
      && t.phase == (if o.error != 0 then Server.Sending(Server.Failure)
                     else if o.transport.None? then Server.Crashed else Server.Sending(Server.Success))
      && t.unsent == (if o.error != 0 then Serialize(Response(VERSION, CONNECTION_REFUSED, ANY_ADDRESS))
                      else if o.transport.None? then s.unsent
                      else Serialize(Response(VERSION, SUCCESS, o.transport.value)))
  {
    hide Serialize;
  }

  /** What the handlers rely on in each phase. */
  lemma StateFacts(s: Server.Server)
    requires Server.Ok(s)
    ensures s.phase.ReadMethods? ==> Parses(s.phase.reader, MethodsKind) && s.query == []
    ensures s.phase.ReadRequest? ==> Parses(s.phase.reader, RequestKind)
    ensures s.phase.AwaitUpstream? ==> s.outcome.None?
    ensures s.phase.Relaying? ==> Server.Connected(s)
    ensures Server.Connected(s) ==> s.asked != []
    ensures !s.phase.Relaying? ==> s.pair.down.got == s.pair.down.put == s.pair.up.put == []
  {
    hide Reaches, Serialize, Stream;
  }

  lemma RelayFacts(s: Server.Server)
    requires Server.Ok(s)
    ensures s.pair.down.put <= s.pair.up.got
    ensures s.phase.Relaying? ==> s.pair.down.got == s.pair.up.put + (s.pair.up.dropped + Relay.InFlight(s.pair.upward))
  {
    hide Reaches, Serialize, Stream;
  }
}
