/** The packets as the code handles them: objects and buffers that are filled and appended to in
    place, proved against the wire format. */
module PacketObjects {
  import opened Packets

  /** The address packet; while it is read its host buffer also holds the port. */
  class SocksAddress {
    var kind: byte
    var host: bytes
    var port: uint16

    function Value(): Address
      reads this
    {
      Address(kind, host, port)
    }

    constructor ()
      ensures Value() == Address(1, [0, 0, 0, 0], 0)
    {
      kind, host, port := IPV4, [0, 0, 0, 0], 0;
    }

    /** The completion of the body read: the buffer filled from the transport is cut at the port. */
    method FillFrom(buffer: bytes)
      requires |buffer| >= 2
      modifies this`host, this`port
      ensures Value() == CutPort(kind, buffer)
      ensures host == buffer[..|buffer| - 2]
      ensures port == 256 * (buffer[|buffer| - 2] as int) + buffer[|buffer| - 1]
    {
      host := buffer;
      ExtractPortFromHost();
    }

    /** Takes the big-endian port off the end of the host buffer. */
    method ExtractPortFromHost()
      requires |host| >= 2
      modifies this`host, this`port
      ensures old(host) == host + [port / 256, port % 256]
      ensures Value() == CutPort(kind, old(host))
    {
      CutPortSurjects(kind, host);
      port := (host[|host| - 2] as int) * 256;
      port := port + host[|host| - 1];  // disjoint bits
      host := host[..|host| - 2];
    }

    method Serialize() returns (str: bytes)
      ensures str == AddressBytes(Value())
      ensures |str| > 2 && str[0] == kind
      ensures port == 256 * (str[|str| - 2] as int) + str[|str| - 1]
    {
      str := [kind];
      if kind == DOMAIN_NAME {
        str := str + [|host| % 256];
      }
      str := str + host;
      str := str + [port / 256, port % 256];
    }
  }

  /** Appends the methods one by one. */
  method SerializeMethods(version: byte, methods: bytes) returns (str: bytes)
    ensures str == Serialize(Methods(version, methods))
  {
    str := [version, |methods| % 256];
    var i := 0;
    while i < |methods|
      invariant i <= |methods|
      invariant str == [version, |methods| % 256] + methods[..i]
    {
      str := str + [methods[i]];
      i := i + 1;
    }
    assert methods[..i] == methods;
  }

  /** Fixed-size packets are written into a zeroed buffer: a header has a reserved third byte. */
  method SerializeFixed(version: byte, code: byte, size: nat) returns (str: bytes)
    requires 2 <= size
    ensures |str| == size && str[0] == version && str[1] == code
    ensures forall i :: 2 <= i < size ==> str[i] == 0
  {
    var data := new byte[size](_ => 0);
    data[0] := version;
    data[1] := code;
    str := data[..];
  }

  /** A whole request or response: the header's bytes followed by the body's. */
  method SerializeMessage(isRequest: bool, version: byte, code: byte, body: SocksAddress) returns (str: bytes)
    ensures str == Serialize(Message(Header(isRequest, version, code), body.Value()))
  {
    var header := SerializeFixed(version, code, 3);
    var address := body.Serialize();
    assert header == [version, code, 0];
    str := header + address;
  }

  /** Reads one packet from the front of `input` by exact reads, as far as the input goes. What is
      consumed leads to the state returned, and reading stops only at the end of the packet or for
      want of input. */
  method Receive(start: Reader, input: bytes) returns (r: Reader, consumed: nat)
    requires IsStart(start)
    ensures consumed <= |input| && Reaches(start, input[..consumed], r)
    ensures Waiting(r) ==> |input| - consumed < Need(r)
  {
    hide Feed, Reaches;
    r, consumed := start, 0;
    NothingRead(start);
    while Waiting(r) && |input| - consumed >= Need(r)
      invariant consumed <= |input| && Reaches(start, input[..consumed], r)
      decreases Rank(r)
    {
      var data := input[consumed..consumed + Need(r)];
      ReachesSnoc(start, input[..consumed], r, data);
      FeedRank(r, data);
      assert input[..consumed] + data == input[..consumed + Need(r)];
      consumed := consumed + Need(r);
      r := Feed(r, data);
    }
  }

  /** Receiving inverts serialising and leaves whatever follows the packet untouched. */
  method ReceiveSerialized(p: Packet, rest: bytes) returns (r: Reader, consumed: nat)
    requires Encodable(p)
    ensures r == Got(p) && consumed == |Serialize(p)|
  {
    var input := Serialize(p) + rest;
    r, consumed := Receive(Start(p), input);
    RoundTrip(p);
    if Waiting(r) {
      NextFits(Start(p), input[..consumed], r, Serialize(p), Got(p), input);
      assert false;
    } else {
      SelfDelimiting(Start(p), input[..consumed], r, Serialize(p), Got(p), input);
    }
  }
}
