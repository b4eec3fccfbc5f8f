/** The direct upstream factory, the last hop of a chain: an address becomes an endpoint to connect
    to or a name to resolve. */
module Direct {
  import opened Packets
  import opened Base

  /** A socket endpoint; `FromEndpoint` is what a transport reports as its own address. */
  datatype Endpoint = V4(host: bytes, port: uint16) | V6(host: bytes, port: uint16)

  predicate Valid(e: Endpoint) {
    |e.host| == if e.V4? then 4 else 16
  }

  function FromEndpoint(e: Endpoint): Address {
    Address(if e.V4? then IPV4 else IPV6, e.host, e.port)
  }

  /** What the factory does with an address. */
  datatype Action =
    | Resolve(host: bytes, port: uint16)
    | Connect(endpoint: Endpoint)
    | CallBack(outcome: Outcome)

  predicate KnownKind(a: Address) {
    a.kind == IPV4 || a.kind == DOMAIN_NAME || a.kind == IPV6
  }

  /** How a request can end: with an error, with a transport bound to some endpoint, or, for an
      unknown address type only, with neither. */
  ghost predicate Possible(target: Address, o: Outcome) {
    if KnownKind(target) then
      o.transport.None? == (o.error != 0)
      && (o.transport.Some? ==> exists e :: Valid(e) && o.transport.value == FromEndpoint(e))
    else o == Outcome(0, None)
  }

  /** How connecting to an endpoint can end: with an error, or with a transport bound to some endpoint. */
  ghost predicate Connects(o: Outcome) {
    || (o.error != 0 && o.transport.None?)
    || (o.error == 0 && exists e :: Valid(e) && o.transport == Some(FromEndpoint(e)))
  }

  /** What an action can call back with: a name is resolved first, which may fail, and then connected to. */
  ghost predicate Yields(action: Action, o: Outcome) {
    match action
    case Resolve(_, _) => (o.error != 0 && o.transport.None?) || Connects(o)
    case Connect(_) => Connects(o)
    case CallBack(outcome) => o == outcome
  }

  /** The action the factory takes for an address: names are resolved as given, the endpoint connected to
      reads back as the address, and only an unknown type is called back at once. */
  ghost predicate Decides(a: Address, action: Action) {
    && (action.Connect? <==> a.kind == IPV4 || a.kind == IPV6)
    && (action.Connect? ==> Valid(action.endpoint) && FromEndpoint(action.endpoint) == a)
    && (action.Resolve? ==> Address(DOMAIN_NAME, action.host, action.port) == a)
    && (action.CallBack? <==> !KnownKind(a))
    && (action.CallBack? ==> action.outcome == Outcome(0, None))
  }

  /** Whatever the action, the outcomes are exactly those the chain reckons with. */
  lemma YieldsPossible(a: Address, action: Action, o: Outcome)
    requires Decides(a, action)
    ensures Yields(action, o) <==> Possible(a, o)
  {
    if Possible(a, o) && KnownKind(a) && o.transport.Some? {
      var e :| Valid(e) && o.transport.value == FromEndpoint(e);
      assert o.transport == Some(FromEndpoint(e));
    }
  }

  /** Copies the host into a fixed-size buffer, which it must fill exactly: one byte more overruns
      it and one byte less leaves it partly unset. */
  method CopyHost(host: bytes, buffer: array<byte>)
    requires |host| == buffer.Length
    modifies buffer
    ensures buffer[..] == host
  {
    var i := 0;
    while i < |host|
      invariant i <= |host|
      invariant buffer[..i] == host[..i]
    {
      buffer[i] := host[i];
      i := i + 1;
    }
  }

  /** For every address a server can pass on, the fixed-size copies fit and the endpoint connected to
      reads back as the requested address; names are resolved as given. */
  method StartRequest(a: Address) returns (action: Action)
    requires a.kind == IPV4 ==> |a.host| == 4
    requires a.kind == IPV6 ==> |a.host| == 16
    ensures Decides(a, action)
  {
    if a.kind == DOMAIN_NAME {
      action := Resolve(a.host, a.port);
    } else if a.kind == IPV4 {
      var buffer := new byte[4];
      CopyHost(a.host, buffer);
      action := Connect(V4(buffer[..], a.port));
    } else if a.kind == IPV6 {
      var buffer := new byte[16];
      CopyHost(a.host, buffer);
      action := Connect(V6(buffer[..], a.port));
    } else {
      action := CallBack(Outcome(0, None));
    }
  }
}
