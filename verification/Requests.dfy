/** The callbacks of one request of the SOCKS upstream factory as methods on an object, and the handing
    over of its transport to the connection that asked. */
module Requests {
  import opened Packets
  import opened Base
  import Relay
  import Server
  import Client
  import opened Callbacks

  class UpstreamRequest {
    const endpoint: Address
    var transport: Transport?
    var phase: Client.Phase
    var unsent: bytes
    var calls: seq<Call>
    ghost var run: seq<Client.Client>
    ghost var events: seq<Client.Event>

    /** The transport, if connected, carried what the request read and wrote. */
    ghost predicate HasTransport(c: Client.Client)
      reads this`transport, transport
    {
      if transport == null then Client.Opened !in c.log
      else
        && Client.Opened in c.log
        && transport.Is(if Client.Closed in c.log then Relay.Close(Relay.FRESH) else Relay.FRESH,
                        c.choice + c.answer, c.sent)
    }

    /** The callback was invoked as logged, if at all with the request's own transport. */
    ghost predicate HasCalled(c: Client.Client)
      reads this`calls, this`transport
    {
      if c.phase.Finished? then
        && |calls| == 1 && c.log != [] && c.log[|c.log| - 1] == Client.Called(Reported(calls[0]))
        && (calls[0].transport != null ==> calls[0].transport == transport)
      else calls == []
    }

    /** The object and its transport are in state `c`. */
    ghost predicate Matches(c: Client.Client)
      reads this, transport
    {
      phase == c.phase && unsent == c.unsent && endpoint == c.endpoint && HasTransport(c) && HasCalled(c)
    }

    ghost function State(): Client.Client
      reads this
    {
      if run == [] then Client.Init(endpoint) else run[|run| - 1]
    }

    ghost predicate Valid()
      reads this, transport
    {
      Client.IsRun(run, endpoint) && Client.IsTrace(run, events, endpoint) && Matches(State())
    }

    constructor (endpoint: Address)
      ensures Valid() && this.endpoint == endpoint && calls == [] && transport == null && |run| == 1
    {
      this.endpoint := endpoint;
      transport := null;
      phase := Client.Connecting;
      unsent, calls := [], [];
      new;
      Client.InitialRun(endpoint);
      run, events := [Client.Init(endpoint)], [];
    }

    method StartWriteTo(next: Client.Phase, p: Packet)
      modifies this`phase, this`unsent
      ensures phase == next && unsent == Serialize(p)
    {
      unsent := Serialize(p);
      phase := next;
    }

    /** Closes the transport, then calls back without one. */
    method GiveUp(error: nat)
      requires transport != null
      modifies this`phase, this`calls, transport`open
      ensures !transport.open
      ensures forall p, read, written ::
        old(transport.Is(p, read, written)) ==> transport.Is(Relay.Close(p), read, written)
      ensures phase == Client.Finished && calls == old(calls) + [Call(error, null, ANY_ADDRESS)]
    {
      transport.StartClose();
      calls := calls + [Call(error, null, ANY_ADDRESS)];
      phase := Client.Finished;
    }

    /** A read of the selection completed: an accepted method lets the request go out. */
    method OnSelection(data: bytes, ghost c: Client.Client)
      requires Matches(c) && phase.ReadSelection? && Client.Enabled(c, Client.Receive(data))
      requires Parses(phase.reader, SelectKind) && c.log == [Client.Opened] && c.answer == []
      modifies this`phase, this`unsent, this`calls, transport
      ensures Matches(Client.Apply(c, Client.Receive(data)))
    {
      FeedParses(phase.reader, data, SelectKind);
      SelectionFrame(c, data);
      hide Serialize, Feed, Client.Apply, Client.Enabled, Transport.Is;
      var r := Feed(phase.reader, data);
      transport.Hear(data, Relay.FRESH, c.choice + c.answer, c.sent);
      assert c.choice + c.answer + data == c.choice + data + c.answer;
      if r.packet.choice != NO_AUTH {
        GiveUp(0);
      } else {
        StartWriteTo(Client.SendingRequest, Request(VERSION, CONNECT, endpoint));
      }
    }

    /** A read of the response completed: success hands the transport over with the address the server
        reported, anything else closes it. */
    method OnResponse(data: bytes, ghost c: Client.Client)
      requires Matches(c) && phase.ReadResponse? && Client.Enabled(c, Client.Receive(data))
      requires Parses(phase.reader, ResponseKind) && c.log == [Client.Opened]
      modifies this`phase, this`unsent, this`calls, transport
      ensures Matches(Client.Apply(c, Client.Receive(data)))
    {
      FeedParses(phase.reader, data, ResponseKind);
      ResponseFrame(c, data);
      hide Serialize, Feed, Client.Apply, Client.Enabled, Transport.Is;
      var r := Feed(phase.reader, data);
      transport.Hear(data, Relay.FRESH, c.choice + c.answer, c.sent);
      assert c.choice + c.answer + data == c.choice + (c.answer + data);
      if r.Silent? {
        phase := Client.Phase.Silent;
      } else if r.Undefined? {
        phase := Client.Crashed;
      } else if !r.Got? {
        phase := Client.ReadResponse(r);
      } else if r.packet.code != SUCCESS {
        GiveUp(r.packet.code);
      } else {
        calls := calls + [Call(0, transport, r.packet.address)];
        phase := Client.Finished;
      }
    }

    method OnWroteSome(n: nat, ghost c: Client.Client)
      requires Matches(c) && Client.Enabled(c, Client.PutSome(n)) && c.log == [Client.Opened]
      modifies this`unsent, transport
      ensures Matches(Client.Apply(c, Client.PutSome(n)))
    {
      transport.wire := transport.wire + unsent[..n];
      unsent := unsent[n..];
    }

    method OnWritten(ghost c: Client.Client)
      requires Matches(c) && Client.Enabled(c, Client.PutAll)
      modifies this`phase
      ensures Matches(Client.Apply(c, Client.PutAll))
    {
      if phase.SendingHello? {
        phase := Client.ReadSelection(SelectBody);
      } else {
        phase := Client.ReadResponse(Head(false));
      }
    }

    /** Connecting, reading or writing failed; before the connection there is nothing to close. */
    method OnFailed(error: nat, ghost c: Client.Client, ghost e: Client.Event)
      requires Matches(c) && Client.Enabled(c, e)
      requires e in {Client.ConnectFails(error), Client.ReceiveFails(error), Client.PutFails(error)}
      requires c.log == if phase.Connecting? then [] else [Client.Opened]
      modifies this`phase, this`calls, transport
      ensures Matches(Client.Apply(c, e))
    {
      if transport == null {
        calls := calls + [Call(error, null, ANY_ADDRESS)];
        phase := Client.Finished;
      } else {
        GiveUp(error);
      }
    }

    /** Adds the step just taken to the run. */
    ghost method Record(e: Client.Event)
      requires Client.IsRun(run, endpoint) && Client.IsTrace(run, events, endpoint)
      requires Client.Enabled(State(), e) && Matches(Client.Apply(State(), e))
      modifies this`run, this`events
      ensures Valid() && run == old(run) + [Client.Apply(old(State()), e)] && events == old(events) + [e]
    {
      hide Client.Apply, Client.Enabled, Client.Next, HasTransport, HasCalled;
      Client.ExtendTrace(run, events, endpoint, e);
      run := Client.Extend(run, endpoint, e);
      events := events + [e];
    }

    /** The connection was made: the method list is sent. */
    method SendAuthRequest(connected: Transport)
      requires Valid() && phase.Connecting?
      requires connected.open && !connected.broken && connected.heard == connected.wire == connected.dropped == []
      modifies this
      ensures Valid() && transport == connected && run == old(run) + [Client.Apply(old(State()), Client.Connect)]
      ensures events == old(events) + [Client.Connect] && unsent == [5, 1, 0]
    {
      Facts();
      FixedPackets();
      hide Client.IsRun, Client.IsTrace, Serialize;
      transport := connected;
      StartWriteTo(Client.SendingHello, Client.HELLO);
      Record(Client.Connect);
    }

    /** Any other completion, dispatched to its handler: the object stays valid and its run grows by exactly
        that step. */
    method Complete(e: Client.Event)
      requires Valid() && Client.Enabled(State(), e) && !e.Connect?
      modifies this, transport
      ensures Valid() && transport == old(transport) && run == old(run) + [Client.Apply(old(State()), e)]
      ensures events == old(events) + [e]
    {
      ghost var c := State();
      Facts();
      hide Client.Apply, Client.IsRun, Client.IsTrace, Matches, Parses;
      if e.Receive? && phase.ReadSelection? {
        OnSelection(e.data, c);
      } else if e.Receive? {
        OnResponse(e.data, c);
      } else if e.PutSome? {
        OnWroteSome(e.count, c);
      } else if e.PutAll? {
        OnWritten(c);
      } else {
        OnFailed(e.error, c, e);
      }
      Record(e);
    }

    /** What the handlers rely on in each phase. */
    lemma Facts()
      requires Valid()
      ensures Matches(State()) && phase == State().phase
      ensures phase.ReadSelection? ==> Parses(phase.reader, SelectKind) && State().answer == []
      ensures phase.ReadResponse? ==> Parses(phase.reader, ResponseKind)
      ensures phase.Connecting? ==>
        && transport == null && State().log == []
        && State().choice == State().answer == State().sent == []
      ensures Client.Reading(State()) || Client.Sending(State()) ==> State().log == [Client.Opened] && transport != null
    {
      hide Client.Ok, Client.Next;
      Client.RunOk(run, endpoint);
      RequestFacts(State());
    }

    // ----- what holds of the object -----

    /** The callback was invoked at most once, and, with nothing pending, exactly once unless the reply
        carried an unknown address type or the read behind a wrapping domain length completed. */
    lemma CallsBackOnce()
      requires Valid()
      ensures |calls| <= 1
      ensures Client.AtRest(State()) ==> (calls == [] <==> UnknownKind(State().answer) || Client.ReadsWrapped(run))
    {
      hide Client.ReadsWrapped, Client.Next, Client.AtRest, UnknownKind, Serialize;
      Client.RequestEndsOnce(run, endpoint);
      Client.FinishedCalls(State()) by { Client.RunOk(run, endpoint); }
    }

    /** A failed connect, read or write made the object call back with exactly that error and no transport,
        closing the one it had; a response made it call back with the response's code. */
    lemma ReportsFailure(i: nat)
      requires Valid() && i < |events| && Client.Fails(events[i])
      ensures |calls| == 1 && calls[0].transport == null && calls[0].error == events[i].error
      ensures transport != null ==> !transport.open
    {
      hide Client.IsRun, Serialize, Stream, Reaches;
      Client.FailureIsLast(run, events, endpoint, i);
      Client.ReportsExactly(run, events, endpoint);
    }

    lemma ReportsResponse()
      requires Valid() && State().response.Some?
      ensures |calls| == 1 && |State().answer| >= 2 && calls[0].error == State().answer[1]
      ensures calls[0].transport != null <==> State().answer[1] == 0
    {
      hide Client.IsTrace, Client.Next, Reaches, Serialize, Stream;
      Client.RunOk(run, endpoint);
      Client.ReadsInBytes(State());
      ResponseReported(State());
    }

    /** A transport that was handed over is the request's own, is open, and has carried exactly the method
        list and the request; if none was handed over, a connected one is closed. */
    lemma HandsOverOpen()
      requires Valid() && calls != []
      ensures calls[0].transport != null ==>
        && calls[0].transport == transport && transport.open && calls[0].error == 0
        && transport.wire == [5, 1, 0] + ([5, 1, 0] + AddressBytes(endpoint))
      ensures calls[0].transport == null && transport != null ==> !transport.open
    {
      hide Serialize, Client.Next, Stream, Reaches;
      var c := State();
      Client.RunOk(run, endpoint);
      LastCall(c);
      Client.RequestEndsOnce(run, endpoint);
      assert c.sent + [] == c.sent;
    }

    lemma HandsOverIntact()
      requires Valid() && calls != []
      ensures calls[0].transport != null ==> !calls[0].transport.broken && calls[0].transport.dropped == []
    {
      hide Client.IsRun;
    }
  }

  lemma ResponseReported(c: Client.Client)
    requires Client.Ok(c) && c.response.Some?
    ensures c.phase.Finished? && c.log != [] && c.response.value.Response?
    ensures c.log[|c.log| - 1].Called? && c.log[|c.log| - 1].outcome.error == c.response.value.code
    ensures c.log[|c.log| - 1].outcome.transport.Some? <==> Client.Granted(c)
  {
    hide Reaches, Serialize, Stream, Client.Wired;
  }

  lemma RequestFacts(c: Client.Client)
    requires Client.Ok(c)
    ensures c.phase.ReadSelection? ==> Parses(c.phase.reader, SelectKind) && c.answer == []
    ensures c.phase.ReadResponse? ==> Parses(c.phase.reader, ResponseKind)
    ensures c.phase.Connecting? ==> c.log == [] && c.choice == c.answer == c.sent == []
    ensures Client.Reading(c) || Client.Sending(c) ==> c.log == [Client.Opened]
  {
    hide Reaches, Serialize;
  }

  /** The last entry of a finished request's log tells whether its transport was closed. */
  lemma LastCall(c: Client.Client)
    requires Client.Ok(c) && c.phase.Finished?
    ensures c.log != [] && c.log[|c.log| - 1].Called?
    ensures c.log[|c.log| - 1].outcome.transport.Some? <==> Client.Granted(c)
    ensures Client.Granted(c) ==> c.log[|c.log| - 1].outcome.error == 0
    ensures !Client.Granted(c) && Client.Opened in c.log ==> Client.Closed in c.log
  {
    hide Reaches, Serialize, Stream, Client.Parsed, Client.Wired;
  }

  /** What the machine does on a selection and what it leaves alone. */
  lemma SelectionFrame(c: Client.Client, data: bytes)
    requires c.phase.ReadSelection? && Client.Enabled(c, Client.Receive(data)) && Parses(c.phase.reader, SelectKind)
    ensures var r, d := Feed(c.phase.reader, data), Client.Apply(c, Client.Receive(data));
      && r.Got? && r.packet.Select?
      && d.endpoint == c.endpoint && d.choice == c.choice + data && d.answer == c.answer && d.sent == c.sent
      && (r.packet.choice != NO_AUTH ==>
            d.phase == Client.Finished && d.unsent == c.unsent
            && d.log == c.log + [Client.Closed, Client.Called(Outcome(0, None))])
      && (r.packet.choice == NO_AUTH ==>
            && d.phase == Client.SendingRequest && d.log == c.log
            && d.unsent == Serialize(Request(VERSION, CONNECT, c.endpoint)))
  {
    FeedParses(c.phase.reader, data, SelectKind);
    hide Serialize;
  }

  /** What the machine does on a response and what it leaves alone. */
  lemma ResponseFrame(c: Client.Client, data: bytes)
    requires c.phase.ReadResponse? && Client.Enabled(c, Client.Receive(data)) && Parses(c.phase.reader, ResponseKind)
    ensures var r, d := Feed(c.phase.reader, data), Client.Apply(c, Client.Receive(data));
      && d.endpoint == c.endpoint && d.choice == c.choice && d.answer == c.answer + data
      && d.sent == c.sent && d.unsent == c.unsent
      && (!r.Got? ==>
            && d.log == c.log
            && d.phase == if r.Silent? then Client.Phase.Silent
                          else if r.Undefined? then Client.Crashed else Client.ReadResponse(r))
      && (r.Got? ==>
            && r.packet.Response? && d.phase == Client.Finished
            && d.log == c.log + if r.packet.code == SUCCESS then [Client.Called(Outcome(0, Some(r.packet.address)))]
                                else [Client.Closed, Client.Called(Outcome(r.packet.code, None))])
  {
    FeedParses(c.phase.reader, data, ResponseKind);
    hide Serialize, Feed;
  }

  /** The callback of a request is the connection's: the connection goes on with the request's own open
      transport, which has carried exactly the SOCKS handshake for the endpoint, or with none. */
  method HandOver(request: UpstreamRequest, connection: Connection)
    requires request.Valid() && request.calls != [] && request.transport != connection.downstream
    requires connection.Valid() && connection.phase.AwaitUpstream?
    modifies connection
    ensures request.Valid() && connection.Valid()
    ensures connection.run == old(connection.run)
              + [Server.Apply(old(connection.State()), Server.Answer(Reported(request.calls[0])))]
    ensures connection.upstream != null ==>
      && connection.upstream == request.transport && connection.upstream.open
      && connection.upWire == [5, 1, 0] + ([5, 1, 0] + AddressBytes(request.endpoint))
  {
    request.HandsOverOpen();
    request.HandsOverIntact();
    hide Serialize, Server.Apply, Connection.Matches, Client.IsRun, Server.IsRun, UpstreamRequest.Matches;
    connection.OnUpstream(request.calls[0]);
  }
}
