/** The SOCKS5 wire format: the packets of sections 3, 4 and 6 of RFC 1928, their serialisers
    and the incremental parsers, one parser state per exact read the code issues. */
module Packets {

  type byte = x: int | 0 <= x < 256
  type uint16 = x: int | 0 <= x < 0x1_0000
  type bytes = seq<byte>

  const VERSION: byte := 5
  const NO_AUTH: byte := 0x00
  const NOT_SUPPORTED: byte := 0xff
  const CONNECT: byte := 0x01
  const SUCCESS: byte := 0x00
  const CONNECTION_REFUSED: byte := 0x05
  const COMMAND_NOT_SUPPORTED: byte := 0x07
  const IPV4: byte := 0x01
  const DOMAIN_NAME: byte := 0x03
  const IPV6: byte := 0x04

  /** `kind` is the raw type byte: a parsed or a foreign address may hold any value. */
  datatype Address = Address(kind: byte, host: bytes, port: uint16)

  /** The default-constructed address, which is the body of every error response. */
  const ANY_ADDRESS := Address(IPV4, [0, 0, 0, 0], 0)

  datatype Packet =
    | Methods(version: byte, methods: bytes)
    | Select(version: byte, choice: byte)
    | Request(version: byte, command: byte, address: Address)
    | Response(version: byte, code: byte, address: Address)

  /** The addresses the format can carry and the parser can return. */
  predicate WellFormed(a: Address) {
    || (a.kind == IPV4 && |a.host| == 4)
    || (a.kind == IPV6 && |a.host| == 16)
    || (a.kind == DOMAIN_NAME && |a.host| <= 253)
  }

  predicate Encodable(p: Packet) {
    match p
    case Methods(_, ms) => |ms| <= 255
    case Select(_, _) => true
    case Request(_, _, a) => WellFormed(a)
    case Response(_, _, a) => WellFormed(a)
  }

  function PortBytes(port: uint16): bytes {
    [port / 256, port % 256]
  }

  function AddressBytes(a: Address): bytes {
    [a.kind] + (if a.kind == DOMAIN_NAME then [|a.host| % 256] else []) + a.host
    + PortBytes(a.port)
  }

  function Serialize(p: Packet): bytes {
    match p
    case Methods(v, ms) => [v, |ms| % 256] + ms
    case Select(v, m) => [v, m]
    case Request(v, c, a) => [v, c, 0] + AddressBytes(a)
    case Response(v, c, a) => [v, c, 0] + AddressBytes(a)
  }

  // ----- incremental parsing -----

  /** The three-byte header of a request or a response, with the meaning of its second byte. */
  datatype Header = Header(isRequest: bool, version: byte, code: byte)

  /** What the pending exact read is for. `Silent` is the unknown address type, after which the
      code neither reads nor calls back; `Undefined` is a body too short to hold the port. */
  datatype Reader =
    | MethodsHead
    | MethodsBody(version: byte, count: byte)
    | SelectBody
    | Head(isRequest: bool)
    | AddressKind(header: Header)
    | FixedBody(header: Header, kind: byte)
    | DomainLength(header: Header)
    | DomainBody(header: Header, size: byte)
    | Got(packet: Packet)
    | Silent
    | Undefined

  predicate Waiting(r: Reader) {
    !r.Got? && !r.Silent? && !r.Undefined?
  }

  /** The length of the pending exact read. */
  function Need(r: Reader): nat
    requires Waiting(r)
  {
    match r
    case MethodsHead => 2
    case MethodsBody(_, count) => count
    case SelectBody => 2
    case Head(_) => 3
    case AddressKind(_) => 1
    case FixedBody(_, kind) => if kind == IPV4 then 4 + 2 else 16 + 2
    case DomainLength(_) => 1
    case DomainBody(_, size) => size
  }

  /** Splits the port off the end of a host buffer. */
  function CutPort(kind: byte, buffer: bytes): Address
    requires |buffer| >= 2
  {
    var n := |buffer|;
    Address(kind, buffer[..n - 2], (buffer[n - 2] as int) * 256 + buffer[n - 1])
  }

  function Message(h: Header, a: Address): Packet {
    if h.isRequest then Request(h.version, h.code, a) else Response(h.version, h.code, a)
  }

  function Finish(h: Header, kind: byte, buffer: bytes): Reader {
    if |buffer| < 2 then Undefined
    else Got(Message(h, CutPort(kind, buffer)))
  }

  /** The completion of the pending exact read. */
  function Feed(r: Reader, b: bytes): Reader
    requires Waiting(r) && |b| == Need(r)
  {
    match r
    case MethodsHead =>
      var header := (b[0] as int) + 256 * (b[1] as int);  // two bytes read into a little-endian integer
      MethodsBody(header % 256, header / 256)
    case MethodsBody(v, _) => Got(Methods(v, b))
    case SelectBody => Got(Select(b[0], b[1]))
    case Head(isRequest) => AddressKind(Header(isRequest, b[0], b[1]))
    case AddressKind(h) =>
      if b[0] == IPV4 || b[0] == IPV6 then FixedBody(h, b[0])
      else if b[0] == DOMAIN_NAME then DomainLength(h)
      else Silent
    case FixedBody(h, kind) => Finish(h, kind, b)
    case DomainLength(h) => DomainBody(h, (b[0] as int + 2) % 256)  // kept in eight bits
    case DomainBody(h, _) => Finish(h, DOMAIN_NAME, b)
  }

  function Rank(r: Reader): nat {
    match r
    case MethodsHead => 2
    case MethodsBody(_, _) => 1
    case SelectBody => 1
    case Head(_) => 4
    case AddressKind(_) => 3
    case FixedBody(_, _) => 1
    case DomainLength(_) => 2
    case DomainBody(_, _) => 1
    case _ => 0
  }

  /** Exact reads that consume `input`, and nothing else, lead from `r0` to `r`. */
  ghost predicate Reaches(r0: Reader, input: bytes, r: Reader)
    decreases Rank(r0)
  {
    || (r0 == r && input == [])
    || (Waiting(r0) && |input| >= Need(r0) && Reaches(Feed(r0, input[..Need(r0)]), input[Need(r0)..], r))
  }

  function Start(p: Packet): Reader {
    match p
    case Methods(_, _) => MethodsHead
    case Select(_, _) => SelectBody
    case Request(_, _, _) => Head(true)
    case Response(_, _, _) => Head(false)
  }

  predicate IsStart(r: Reader) {
    r.MethodsHead? || r.SelectBody? || r.Head?
  }

  // ----- the incremental parser is deterministic and self-delimiting -----

  lemma NothingRead(r: Reader)
    ensures Reaches(r, [], r)
  {
  }

  lemma FeedRank(r: Reader, b: bytes)
    requires Waiting(r) && |b| == Need(r)
    ensures Rank(Feed(r, b)) < Rank(r) <= 4
  {
  }

  lemma {:induction false} ReachesSnoc(r0: Reader, x: bytes, r: Reader, b: bytes)
    requires Reaches(r0, x, r)
    requires Waiting(r) && |b| == Need(r)
    ensures Reaches(r0, x + b, Feed(r, b))
    decreases Rank(r0)
  {
    hide Feed, Need, Rank;
    if r0 == r && x == [] {
      assert x + b == b && b[..Need(r)] == b && b[Need(r)..] == [];
    } else {
      var n := Need(r0);
      assert (x + b)[..n] == x[..n] && (x + b)[n..] == x[n..] + b;
      FeedRank(r0, x[..n]);
      ReachesSnoc(Feed(r0, x[..n]), x[n..], r, b);
    }
  }

  /** Whoever reads further on the same stream passes through the same parser states. */
  lemma {:induction false} ReachesSplit(r0: Reader, x: bytes, r: Reader, z: bytes, q: Reader)
    requires Reaches(r0, x, r) && Reaches(r0, z, q)
    requires x <= z && (!Waiting(q) || |x| < |z|)
    ensures Reaches(r, z[|x|..], q)
    decreases Rank(r0)
  {
    hide Feed, Need, Rank;
    if r0 == r && x == [] {
      assert z[|x|..] == z;
    } else {
      var n := Need(r0);
      assert x[..n] == z[..n] && x[n..] <= z[n..];
      assert z[n..][|x[n..]|..] == z[|x|..];
      FeedRank(r0, x[..n]);
      ReachesSplit(Feed(r0, x[..n]), x[n..], r, z[n..], q);
    }
  }

  /** A finished packet ends at one place of a stream only. */
  lemma {:induction false} SelfDelimiting(r0: Reader, x: bytes, p: Reader, y: bytes, q: Reader, stream: bytes)
    requires Reaches(r0, x, p) && !Waiting(p)
    requires Reaches(r0, y, q) && !Waiting(q)
    requires x <= stream && y <= stream
    ensures x == y && p == q
  {
    if |x| <= |y| {
      assert x <= y;
      ReachesSplit(r0, x, p, y, q);
    } else {
      assert y <= x;
      ReachesSplit(r0, y, q, x, p);
    }
  }

  /** A parser that is part way through a packet finds its next read within that packet. */
  lemma {:induction false} NextReadFits(r0: Reader, x: bytes, r: Reader, z: bytes, q: Reader)
    requires Reaches(r0, x, r) && Waiting(r)
    requires Reaches(r0, z, q) && !Waiting(q)
    requires x <= z
    ensures |x| + Need(r) <= |z|
  {
    hide Feed, Need, Rank;
    ReachesSplit(r0, x, r, z, q);
  }

  /** The packet a parser state belongs to: a method list, a selection, a request or a response. */
  datatype Kind = MethodsKind | SelectKind | RequestKind | ResponseKind

  function PacketKind(p: Packet): Kind {
    match p
    case Methods(_, _) => MethodsKind
    case Select(_, _) => SelectKind
    case Request(_, _, _) => RequestKind
    case Response(_, _, _) => ResponseKind
  }

  predicate Parses(r: Reader, k: Kind) {
    match r
    case MethodsHead => k == MethodsKind
    case MethodsBody(_, _) => k == MethodsKind
    case SelectBody => k == SelectKind
    case Head(isRequest) => k == if isRequest then RequestKind else ResponseKind
    case AddressKind(h) => k == if h.isRequest then RequestKind else ResponseKind
    case FixedBody(h, _) => k == if h.isRequest then RequestKind else ResponseKind
    case DomainLength(h) => k == if h.isRequest then RequestKind else ResponseKind
    case DomainBody(h, _) => k == if h.isRequest then RequestKind else ResponseKind
    case Got(p) => k == PacketKind(p)
    case _ => k == RequestKind || k == ResponseKind
  }

  lemma FeedParses(r: Reader, b: bytes, k: Kind)
    requires Waiting(r) && |b| == Need(r) && Parses(r, k)
    ensures Parses(Feed(r, b), k)
  {
  }

  // ----- parsing inverts serialising, exactly on the encodable packets -----

  lemma CutPortInverts(a: Address)
    ensures CutPort(a.kind, a.host + PortBytes(a.port)) == a
  {
    assert (a.host + PortBytes(a.port))[..|a.host|] == a.host;
  }

  lemma CutPortSurjects(kind: byte, buffer: bytes)
    requires |buffer| >= 2
    ensures buffer == CutPort(kind, buffer).host + PortBytes(CutPort(kind, buffer).port)
  {
    assert buffer == buffer[..|buffer| - 2] + [buffer[|buffer| - 2], buffer[|buffer| - 1]];
  }

  lemma {:induction false} ReachesCons(r0: Reader, b: bytes, x: bytes, q: Reader)
    requires Waiting(r0) && |b| == Need(r0) && Reaches(Feed(r0, b), x, q)
    ensures Reaches(r0, b + x, q)
  {
    assert (b + x)[..|b|] == b && (b + x)[|b|..] == x;
  }

  lemma {:induction false} OneRead(r0: Reader, b: bytes)
    requires Waiting(r0) && |b| == Need(r0)
    ensures Reaches(r0, b, Feed(r0, b))
  {
    ReachesCons(r0, b, [], Feed(r0, b));
    assert b + [] == b;
  }

  lemma {:induction false} FixedReaches(h: Header, a: Address)
    requires WellFormed(a) && a.kind != DOMAIN_NAME
    ensures Reaches(FixedBody(h, a.kind), a.host + PortBytes(a.port), Got(Message(h, a)))
  {
    CutPortInverts(a);
    OneRead(FixedBody(h, a.kind), a.host + PortBytes(a.port));
  }

  lemma {:induction false} DomainReaches(h: Header, a: Address)
    requires WellFormed(a) && a.kind == DOMAIN_NAME
    ensures Reaches(DomainLength(h), [|a.host|] + (a.host + PortBytes(a.port)), Got(Message(h, a)))
  {
    CutPortInverts(a);
    var tail := a.host + PortBytes(a.port);
    OneRead(DomainBody(h, |a.host| + 2), tail);
    ReachesCons(DomainLength(h), [|a.host|], tail, Got(Message(h, a)));
  }

  /** The wire layout of an address the format can carry. */
  lemma AddressLayout(a: Address)
    requires WellFormed(a)
    ensures AddressBytes(a) ==
      [a.kind] + (if a.kind == DOMAIN_NAME then [|a.host|] + (a.host + PortBytes(a.port))
                  else a.host + PortBytes(a.port))
  {
  }

  lemma {:induction false} AddressReaches(h: Header, a: Address)
    requires WellFormed(a)
    ensures Reaches(AddressKind(h), AddressBytes(a), Got(Message(h, a)))
  {
    AddressLayout(a);
    if a.kind == DOMAIN_NAME {
      DomainReaches(h, a);
      ReachesCons(AddressKind(h), [a.kind], [|a.host|] + (a.host + PortBytes(a.port)), Got(Message(h, a)));
    } else {
      FixedReaches(h, a);
      ReachesCons(AddressKind(h), [a.kind], a.host + PortBytes(a.port), Got(Message(h, a)));
    }
  }

  lemma {:induction false} MessageReaches(h: Header, a: Address)
    requires WellFormed(a)
    ensures Reaches(Head(h.isRequest), [h.version, h.code, 0] + AddressBytes(a), Got(Message(h, a)))
  {
    AddressReaches(h, a);
    ReachesCons(Head(h.isRequest), [h.version, h.code, 0], AddressBytes(a), Got(Message(h, a)));
  }

  lemma {:induction false} MethodsReach(v: byte, ms: bytes)
    requires |ms| <= 255
    ensures Reaches(MethodsHead, [v, |ms|] + ms, Got(Methods(v, ms)))
  {
    OneRead(MethodsBody(v, |ms|), ms);
    ReachesCons(MethodsHead, [v, |ms|], ms, Got(Methods(v, ms)));
  }

  lemma {:induction false} RoundTrip(p: Packet)
    requires Encodable(p)
    ensures Reaches(Start(p), Serialize(p), Got(p))
  {
    match p
    case Methods(v, ms) => MethodsReach(v, ms);
    case Select(v, m) => OneRead(SelectBody, [v, m]);
    case Request(v, c, a) => MessageReaches(Header(true, v, c), a);
    case Response(v, c, a) => MessageReaches(Header(false, v, c), a);
  }

  // ----- the layout in numbers -----

  /** A request or response on the wire, byte by byte, whatever the reserved byte holds: version, code,
      reserved, type 1 with four, type 4 with sixteen or type 3 with a length and up to 253 bytes, and
      the port with its high byte first. */
  lemma {:induction false} MessageLayout(
    isRequest: bool, v: byte, code: byte, reserved: byte, kind: byte, host: bytes, hi: byte, lo: byte)
    requires (kind == 1 && |host| == 4) || (kind == 4 && |host| == 16) || (kind == 3 && |host| <= 253)
    ensures var a := Address(kind, host, 256 * hi as int + lo);
      var p := if isRequest then Request(v, code, a) else Response(v, code, a);
      var tail := (if kind == 3 then [|host|] else []) + (host + [hi, lo]);
      && Reaches(Head(isRequest), [v, code, reserved] + ([kind] + tail), Got(p))
      && Serialize(p) == [v, code, 0] + ([kind] + tail)
  {
    hide Reaches;
    var a := Address(kind, host, 256 * hi as int + lo);
    var tail := (if kind == 3 then [|host|] else []) + (host + [hi, lo]);
    assert AddressBytes(a) == [kind] + tail by { AddressLayout(a); }
    AddressReaches(Header(isRequest, v, code), a);
    ReachesCons(Head(isRequest), [v, code, reserved], AddressBytes(a), Got(Message(Header(isRequest, v, code), a)));
  }

  /** A method list is the version, the number of methods and the methods; a selection is the version and
      the method. */
  lemma {:induction false} GreetingLayout(v: byte, methods: bytes, m: byte)
    requires |methods| <= 255
    ensures Reaches(MethodsHead, [v, |methods|] + methods, Got(Methods(v, methods)))
    ensures Serialize(Methods(v, methods)) == [v, |methods|] + methods
    ensures Reaches(SelectBody, [v, m], Got(Select(v, m)))
    ensures Serialize(Select(v, m)) == [v, m]
  {
    MethodsReach(v, methods);
    OneRead(SelectBody, [v, m]);
  }

  /** What is written for any packet at all, encodable or not: counts and lengths keep their low byte only,
      and only type 3 has one. */
  lemma SerializedLayout(v: byte, code: byte, a: Address, methods: bytes)
    ensures Serialize(Methods(v, methods)) == [v, |methods| % 256] + methods
    ensures Serialize(Request(v, code, a)) == Serialize(Response(v, code, a)) ==
      [v, code, 0, a.kind] + (if a.kind == 3 then [|a.host| % 256] else []) + a.host + [a.port / 256, a.port % 256]
  {
  }

  /** The fixed packets of both sides, in numbers. */
  lemma FixedPackets()
    ensures Serialize(Select(VERSION, NO_AUTH)) == [5, 0]
    ensures Serialize(Select(VERSION, NOT_SUPPORTED)) == [5, 255]
    ensures Serialize(Response(VERSION, COMMAND_NOT_SUPPORTED, ANY_ADDRESS)) == [5, 7, 0, 1, 0, 0, 0, 0, 0, 0]
    ensures Serialize(Response(VERSION, CONNECTION_REFUSED, ANY_ADDRESS)) == [5, 5, 0, 1, 0, 0, 0, 0, 0, 0]
    ensures Serialize(Methods(VERSION, [NO_AUTH])) == [5, 1, 0]
  {
  }

  lemma MessageBytes(a: Address)
    ensures Serialize(Response(VERSION, SUCCESS, a)) == [5, 0, 0] + AddressBytes(a)
    ensures Serialize(Request(VERSION, CONNECT, a)) == [5, 1, 0] + AddressBytes(a)
  {
  }

  /** The bytes as the serialiser would write them: the reserved byte of a header is zero. */
  function Canonical(r0: Reader, b: bytes): bytes
    requires r0.Head? ==> |b| >= 3
  {
    if r0.Head? then b[2 := 0] else b
  }

  lemma {:induction false} LastRead(r: Reader, b: bytes, p: Packet)
    requires Waiting(r) && Rank(r) == 1 && Reaches(r, b, Got(p))
    ensures |b| == Need(r) && Feed(r, b) == Got(p)
  {
    var n := Need(r);
    assert Reaches(Feed(r, b[..n]), b[n..], Got(p));
    assert b[n..] == [] && b[..n] == b;
  }

  lemma {:induction false} BodyAccepted(h: Header, kind: byte, r: Reader, b: bytes, p: Packet)
    requires r == FixedBody(h, kind) || (r.DomainBody? && r.header == h && kind == DOMAIN_NAME)
    requires Reaches(r, b, Got(p))
    ensures |b| == Need(r) >= 2
    ensures p == Message(h, CutPort(kind, b))
    ensures b == CutPort(kind, b).host + PortBytes(CutPort(kind, b).port)
  {
    LastRead(r, b, p);
    CutPortSurjects(kind, b);
  }

  lemma {:induction false} FixedAccepted(h: Header, kind: byte, b: bytes, p: Packet)
    requires kind == IPV4 || kind == IPV6
    requires Reaches(FixedBody(h, kind), b, Got(p))
    ensures (p.Request? || p.Response?) && p == Message(h, p.address)
    ensures WellFormed(p.address) && [kind] + b == AddressBytes(p.address)
  {
    BodyAccepted(h, kind, FixedBody(h, kind), b, p);
    assert [kind] + b == [kind] + [] + b;
  }

  lemma {:induction false} DomainAccepted(h: Header, b: bytes, p: Packet)
    requires Reaches(DomainLength(h), b, Got(p))
    ensures (p.Request? || p.Response?) && p == Message(h, p.address)
    ensures WellFormed(p.address) && [DOMAIN_NAME] + b == AddressBytes(p.address)
  {
    var tail, last := b[1..], Feed(DomainLength(h), b[..1]);
    assert Reaches(last, tail, Got(p));
    BodyAccepted(h, DOMAIN_NAME, last, tail, p);
    assert b == [b[0]] + tail;
    var a := CutPort(DOMAIN_NAME, tail);
    assert WellFormed(a) && b[0] == |a.host|;
    AddressLayout(a);
  }

  lemma {:induction false} AddressAccepted(h: Header, b: bytes, p: Packet)
    requires Reaches(AddressKind(h), b, Got(p))
    ensures (p.Request? || p.Response?) && p == Message(h, p.address)
    ensures WellFormed(p.address) && b == AddressBytes(p.address)
  {
    assert b == [b[0]] + b[1..];
    var next := Feed(AddressKind(h), b[..1]);
    assert Reaches(next, b[1..], Got(p));
    if next.DomainLength? {
      DomainAccepted(h, b[1..], p);
    } else {
      FixedAccepted(h, b[0], b[1..], p);
    }
  }

  lemma {:induction false} MethodsAccepted(b: bytes, p: Packet)
    requires Reaches(MethodsHead, b, Got(p))
    ensures p.Methods? && |p.methods| <= 255 && Serialize(p) == b
  {
    assert b == b[..2] + b[2..];
    LastRead(Feed(MethodsHead, b[..2]), b[2..], p);
  }

  lemma {:induction false} MessageAccepted(isRequest: bool, b: bytes, p: Packet)
    requires Reaches(Head(isRequest), b, Got(p))
    ensures |b| >= 3 && Start(p) == Head(isRequest) && Encodable(p) && Serialize(p) == b[2 := 0]
  {
    AddressAccepted(Header(isRequest, b[0], b[1]), b[3..], p);
    assert b[2 := 0] == [b[0], b[1], 0] + b[3..];
  }

  /** Whatever a parser accepts is encodable and re-serialises to the bytes it consumed, apart
      from the reserved byte. */
  lemma {:induction false} AcceptedReserializes(r0: Reader, b: bytes, p: Packet)
    requires IsStart(r0) && Reaches(r0, b, Got(p))
    ensures Start(p) == r0 && Encodable(p)
    ensures r0.Head? ==> |b| >= 3
    ensures Serialize(p) == Canonical(r0, b)
  {
    match r0
    case MethodsHead => MethodsAccepted(b, p);
    case SelectBody => LastRead(r0, b, p);
    case Head(isRequest) => MessageAccepted(isRequest, b, p);
  }

  /** What the bytes of an accepted packet say: the methods offered, the method chosen, the command or the
      response code. */
  lemma {:induction false} AcceptedBytes(r0: Reader, b: bytes, p: Packet)
    requires IsStart(r0) && Reaches(r0, b, Got(p))
    ensures |b| >= 2 && p.version == b[0]
    ensures p.Methods? ==> p.methods == b[2..] && b[1] == |p.methods|
    ensures p.Select? ==> p.choice == b[1] && |b| == 2
    ensures p.Request? ==> p.command == b[1]
    ensures p.Response? ==> p.code == b[1]
  {
    hide Reaches, AddressBytes;
    AcceptedReserializes(r0, b, p);
    assert Serialize(p)[0] == b[0] && Serialize(p)[1] == b[1];
  }

  /** The round trip holds for the encodable packets and for no others: an overlong method list,
      a wrong host length, a domain of more than 253 bytes and an unknown type all break it. */
  lemma RoundTripExactly(p: Packet)
    ensures Reaches(Start(p), Serialize(p), Got(p)) <==> Encodable(p)
  {
    if Encodable(p) {
      RoundTrip(p);
    } else if Reaches(Start(p), Serialize(p), Got(p)) {
      AcceptedReserializes(Start(p), Serialize(p), p);
    }
  }

  // ----- where parsing never ends or goes wrong -----

  /** The address types after which the code stops without calling back. */
  predicate UnknownKind(b: bytes) {
    |b| >= 4 && b[3] != IPV4 && b[3] != DOMAIN_NAME && b[3] != IPV6
  }

  /** Domain lengths within section 5 of RFC 1928 whose sum with two wraps in eight bits, so that the
      buffer is too short for the port that is then cut from it. */
  predicate WrappingDomain(b: bytes) {
    |b| >= 5 && b[3] == DOMAIN_NAME && b[4] >= 254
  }

  lemma {:induction false} SilentExactly(isRequest: bool, b: bytes)
    ensures Reaches(Head(isRequest), b, Silent) <==> |b| == 4 && UnknownKind(b)
  {
    if |b| >= 4 {
      var kind, rest := AddressKind(Header(isRequest, b[0], b[1])), b[3..];
      assert Reaches(Head(isRequest), b, Silent) <==> Reaches(kind, rest, Silent);
      SilentAddress(kind.header, rest);
    }
  }

  lemma {:induction false} SilentAddress(h: Header, b: bytes)
    requires |b| >= 1
    ensures Reaches(AddressKind(h), b, Silent) <==>
            |b| == 1 && b[0] != IPV4 && b[0] != DOMAIN_NAME && b[0] != IPV6
  {
    var next, rest := Feed(AddressKind(h), b[..1]), b[1..];
    assert Reaches(AddressKind(h), b, Silent) <==> Reaches(next, rest, Silent);
    if next.DomainLength? && |rest| >= 1 {
      var last := Feed(next, rest[..1]);
      assert Reaches(next, rest, Silent) <==> Reaches(last, rest[1..], Silent);
      NeverSilent(last, rest[1..]);
    } else if next.FixedBody? {
      NeverSilent(next, rest);
    }
  }

  lemma {:induction false} NeverSilent(r: Reader, b: bytes)
    requires r.FixedBody? || r.DomainBody?
    ensures !Reaches(r, b, Silent)
  {
    if |b| >= Need(r) {
      assert Feed(r, b[..Need(r)]).Got? || Feed(r, b[..Need(r)]).Undefined?;
    }
  }

  /** A request or response whose parsing ends in undefined behaviour has a domain length that
      wraps, and every such length ends there. */
  lemma {:induction false} UndefinedExactly(isRequest: bool, b: bytes)
    ensures Reaches(Head(isRequest), b, Undefined) <==> WrappingDomain(b) && |b| == 5 + (b[4] - 254)
  {
    if |b| >= 4 {
      var kind, rest := AddressKind(Header(isRequest, b[0], b[1])), b[3..];
      assert Reaches(Head(isRequest), b, Undefined) <==> Reaches(kind, rest, Undefined);
      UndefinedAddress(kind.header, rest);
    }
  }

  lemma {:induction false} UndefinedAddress(h: Header, b: bytes)
    requires |b| >= 1
    ensures Reaches(AddressKind(h), b, Undefined) <==>
            b[0] == DOMAIN_NAME && |b| >= 2 && b[1] >= 254 && |b| == 2 + (b[1] - 254)
  {
    var next, rest := Feed(AddressKind(h), b[..1]), b[1..];
    assert Reaches(AddressKind(h), b, Undefined) <==> Reaches(next, rest, Undefined);
    if next.DomainLength? && |rest| >= 1 {
      var last := Feed(next, rest[..1]);
      assert Reaches(next, rest, Undefined) <==> Reaches(last, rest[1..], Undefined);
      UndefinedBody(last, rest[1..]);
    } else if next.FixedBody? {
      UndefinedBody(next, rest);
    }
  }

  lemma {:induction false} UndefinedBody(r: Reader, b: bytes)
    requires r.FixedBody? || r.DomainBody?
    ensures Reaches(r, b, Undefined) <==> |b| == Need(r) < 2
  {
    if |b| >= Need(r) {
      var q := Feed(r, b[..Need(r)]);
      assert Reaches(r, b, Undefined) <==> Reaches(q, b[Need(r)..], Undefined);
      assert |b| == Need(r) ==> b[Need(r)..] == [];
    }
  }

  /** The bytes end before a request or response does. */
  ghost predicate Unfinished(isRequest: bool, b: bytes) {
    exists r :: Waiting(r) && Reaches(Head(isRequest), b, r)
  }

  lemma {:induction false} Unfold(r0: Reader, b: bytes, r: Reader)
    requires Reaches(r0, b, r) && (r0 != r || b != [])
    ensures Waiting(r0) && |b| >= Need(r0) && Reaches(Feed(r0, b[..Need(r0)]), b[Need(r0)..], r)
  {
    hide Feed, Need, Rank;
  }

  lemma {:induction false} PassesKind(isRequest: bool, b: bytes, r: Reader)
    requires Reaches(Head(isRequest), b, r) && |b| >= 4
    ensures Reaches(Feed(AddressKind(Header(isRequest, b[0], b[1])), b[3..4]), b[4..], r)
  {
    hide Reaches;
    var kind, rest := AddressKind(Header(isRequest, b[0], b[1])), b[3..];
    Unfold(Head(isRequest), b, r);
    Unfold(kind, rest, r);
    assert rest[..1] == b[3..4] && rest[1..] == b[4..];
  }

  /** Behind an unknown address type a parser is in no other state. */
  lemma {:induction false} UnknownEnds(isRequest: bool, b: bytes, r: Reader)
    requires Reaches(Head(isRequest), b, r) && UnknownKind(b)
    ensures r == Silent
  {
    PassesKind(isRequest, b, r);
  }

  lemma {:induction false} BodyEnds(r0: Reader, b: bytes, r: Reader)
    requires (r0.DomainBody? || r0.FixedBody?) && Reaches(r0, b, r) && Waiting(r)
    ensures r == r0 && b == []
  {
    if |b| >= Need(r0) {
      assert Feed(r0, b[..Need(r0)]).Got? || Feed(r0, b[..Need(r0)]).Undefined?;
    }
  }

  lemma {:induction false} PassesLength(isRequest: bool, b: bytes, r: Reader)
    requires Reaches(Head(isRequest), b, r) && |b| >= 5 && b[3] == DOMAIN_NAME && Waiting(r)
    ensures |b| == 5 && r == DomainBody(Header(isRequest, b[0], b[1]), (b[4] as int + 2) % 256)
  {
    hide Reaches;
    PassesKind(isRequest, b, r);
    var length, rest := DomainLength(Header(isRequest, b[0], b[1])), b[4..];
    Unfold(length, rest, r);
    assert rest[..1] == [b[4]];
    BodyEnds(Feed(length, rest[..1]), rest[1..], r);
  }

  lemma {:induction false} DomainBodyAt(isRequest: bool, b: bytes, r: Reader)
    requires Reaches(Head(isRequest), b, r) && r.DomainBody?
    ensures |b| >= 5 && b[3] == DOMAIN_NAME
  {
    assert |b| >= 4;
    PassesKind(isRequest, b, r);
    var next := Feed(AddressKind(Header(isRequest, b[0], b[1])), b[3..4]);
    if next.FixedBody? {
      BodyEnds(next, b[4..], r);
    }
  }

  /** The read that ends in undefined behaviour is the one behind a wrapping domain length. */
  lemma {:induction false} UndefinedRead(isRequest: bool, b: bytes, r: Reader, data: bytes)
    requires Reaches(Head(isRequest), b, r) && Waiting(r) && |data| == Need(r)
    ensures Feed(r, data) == Undefined <==> WrappingDomain(b)
  {
    hide Reaches;
    if r.DomainBody? {
      DomainBodyAt(isRequest, b, r);
    }
    if |b| >= 5 && b[3] == DOMAIN_NAME {
      PassesLength(isRequest, b, r);
    }
  }

  // ----- streams of packets -----

  function Stream(ps: seq<Packet>): bytes {
    if ps == [] then [] else Serialize(ps[0]) + Stream(ps[1..])
  }

  lemma AppendAssociates(x: bytes, y: bytes, z: bytes)
    ensures (x + y) + z == x + (y + z)
  {
  }

  lemma {:induction false} StreamSnoc(ps: seq<Packet>, p: Packet)
    ensures Stream(ps + [p]) == Stream(ps) + Serialize(p)
  {
    if ps == [] {
      assert ps + [p] == [p] && [p][1..] == [];
    } else {
      StreamSnoc(ps[1..], p);
      assert (ps + [p])[1..] == ps[1..] + [p];
      AppendAssociates(Serialize(ps[0]), Stream(ps[1..]), Serialize(p));
    }
  }

  lemma NothingSaid()
    ensures Stream([]) == []
  {
  }

  lemma TwoPackets(p: Packet, q: Packet)
    ensures Stream([p]) == Serialize(p) && Stream([p, q]) == Serialize(p) + Serialize(q)
  {
    hide Serialize;
    assert [p] == [] + [p] && [p, q] == [p] + [q];
    StreamSnoc([], p);
    StreamSnoc([p], q);
  }

  lemma {:induction false} PacketUnique(p: Packet, q: Packet, x: bytes, y: bytes)
    requires Encodable(p) && Encodable(q) && Start(p) == Start(q)
    requires Serialize(p) + x == Serialize(q) + y
    ensures p == q && x == y
  {
    var stream := Serialize(p) + x;
    RoundTrip(p);
    RoundTrip(q);
    SelfDelimiting(Start(p), Serialize(p), Got(p), Serialize(q), Got(q), stream);
    assert x == stream[|Serialize(p)|..] == y;
  }

  lemma StreamCons(ps: seq<Packet>, x: bytes)
    requires ps != []
    ensures Stream(ps) + x == Serialize(ps[0]) + (Stream(ps[1..]) + x)
  {
  }

  /** A stream of packets whose kinds are known decodes in one way only. */
  lemma {:induction false} StreamUnique(ps: seq<Packet>, qs: seq<Packet>, x: bytes, y: bytes)
    requires |ps| == |qs|
    requires forall i :: 0 <= i < |ps| ==> Encodable(ps[i]) && Encodable(qs[i]) && Start(ps[i]) == Start(qs[i])
    requires Stream(ps) + x == Stream(qs) + y
    ensures ps == qs && x == y
  {
    if ps == [] {
      assert [] + x == x && [] + y == y;
    } else {
      StreamCons(ps, x);
      StreamCons(qs, y);
      PacketUnique(ps[0], qs[0], Stream(ps[1..]) + x, Stream(qs[1..]) + y);
      StreamUnique(ps[1..], qs[1..], x, y);
    }
  }

  // ----- writing packets in fragments -----

  /** The bytes sent and the unsent rest of the last packet make up the stream of packets said. */
  ghost predicate OnWire(said: seq<Packet>, sent: bytes, unsent: bytes) {
    && sent + unsent == Stream(said)
    && (if said == [] then unsent == [] else |unsent| <= |Serialize(said[|said| - 1])|)
  }

  lemma SayOnWire(said: seq<Packet>, sent: bytes, p: Packet)
    requires OnWire(said, sent, [])
    ensures OnWire(said + [p], sent, Serialize(p))
  {
    StreamSnoc(said, p);
    assert sent + [] == sent;
  }

  lemma PutOnWire(said: seq<Packet>, sent: bytes, unsent: bytes, n: nat)
    requires OnWire(said, sent, unsent) && n <= |unsent|
    ensures OnWire(said, sent + unsent[..n], unsent[n..])
  {
    assert (sent + unsent[..n]) + unsent[n..] == sent + unsent;
  }

  /** Of two packets the first has left if at most the second is unsent. */
  lemma FirstIsSent(x: bytes, y: bytes, sent: bytes, unsent: bytes)
    requires sent + unsent == x + y && |unsent| <= |y|
    ensures x <= sent
  {
    assert sent == (sent + unsent)[..|sent|] && x == (x + y)[..|x|];
  }

  // ----- reading a stream of at most two packets and a payload -----

  /** `ps` are written in this order, and the payload only after both of two packets. */
  ghost predicate Feeds(ps: seq<Packet>, first: Reader, second: Reader, payload: bytes) {
    && |ps| <= 2 && IsStart(first) && IsStart(second)
    && (forall i :: 0 <= i < |ps| ==> Encodable(ps[i]) && Start(ps[i]) == [first, second][i])
    && (|ps| < 2 ==> payload == [])
  }

  lemma {:induction false} NothingEnds(r: Reader, q: Reader)
    requires IsStart(r) && !Waiting(q)
    ensures !Reaches(r, [], q)
  {
  }

  lemma {:induction false} ReadsOne(p: Packet, a: bytes, q: Reader, rest: bytes)
    requires Encodable(p) && Reaches(Start(p), a, q) && !Waiting(q) && a <= Serialize(p) + rest
    ensures a == Serialize(p) && q == Got(p)
  {
    hide Reaches, Serialize;
    RoundTrip(p);
    SelfDelimiting(Start(p), a, q, Serialize(p), Got(p), Serialize(p) + rest);
  }

  /** A reader that finished its first packet on such a stream read the first packet written. */
  lemma {:induction false} ReadsFirst(
    ps: seq<Packet>, first: Reader, second: Reader, payload: bytes, a: bytes, q: Reader)
    requires Feeds(ps, first, second, payload)
    requires Reaches(first, a, q) && !Waiting(q) && a <= Stream(ps) + payload
    ensures ps != [] && a == Serialize(ps[0]) && q == Got(ps[0])
  {
    hide Reaches, Serialize;
    NothingEnds(first, q);
    assert ps == [] ==> Stream(ps) + payload == [];
    if ps != [] {
      StreamCons(ps, payload);
      ReadsOne(ps[0], a, q, Stream(ps[1..]) + payload);
    }
  }

  /** And the second packet it finished is the second packet written. */
  lemma {:induction false} ReadsSecond(
    ps: seq<Packet>, first: Reader, second: Reader, payload: bytes, b: bytes, q: Reader)
    requires Feeds(ps, first, second, payload) && ps != []
    requires Reaches(second, b, q) && !Waiting(q) && Serialize(ps[0]) + b <= Stream(ps) + payload
    ensures |ps| == 2 && b == Serialize(ps[1]) && q == Got(ps[1])
  {
    hide Reaches, Serialize;
    var line := Stream(ps[1..]) + payload;
    assert |ps| == 1 ==> line == [];
    NothingEnds(second, q);
    StreamCons(ps, payload);
    PrefixCancels(Serialize(ps[0]), b, line);
    if |ps| == 2 {
      StreamCons(ps[1..], payload);
      assert ps[1..][0] == ps[1];
      ReadsOne(ps[1], b, q, Stream(ps[1..][1..]) + payload);
    }
  }

  lemma PrefixCancels(x: bytes, y: bytes, z: bytes)
    requires x + y <= x + z
    ensures y <= z
  {
    assert y == (x + y)[|x|..] && z == (x + z)[|x|..];
  }

  /** After both packets exactly the payload follows. */
  lemma {:induction false} ReadsPayload(ps: seq<Packet>, payload: bytes, rest: bytes)
    requires |ps| == 2 && Serialize(ps[0]) + Serialize(ps[1]) + rest <= Stream(ps) + payload
    ensures rest <= payload
  {
    hide Serialize;
    assert ps == [] + [ps[0]] + [ps[1]];
    StreamSnoc([] + [ps[0]], ps[1]);
    StreamSnoc([], ps[0]);
    assert Stream(ps) == Serialize(ps[0]) + Serialize(ps[1]);
    PrefixCancels(Serialize(ps[0]) + Serialize(ps[1]), rest, payload);
  }

  /** A reader part way through its packet on a stream that holds the whole packet. */
  lemma {:induction false} NextFits(r0: Reader, a: bytes, r: Reader, x: bytes, q: Reader, stream: bytes)
    requires Reaches(r0, a, r) && Waiting(r) && Reaches(r0, x, q) && !Waiting(q)
    requires a <= stream && x <= stream
    ensures |a| + Need(r) <= |x|
  {
    hide Feed, Need, Rank;
    if |a| <= |x| {
      assert a <= x;
      NextReadFits(r0, a, r, x, q);
    } else {
      assert x <= a;
      ReachesSplit(r0, x, q, a, r);
      assert false;
    }
  }

  lemma {:induction false} FirstFits(
    ps: seq<Packet>, first: Reader, second: Reader, payload: bytes, a: bytes, r: Reader)
    requires Feeds(ps, first, second, payload) && ps != []
    requires Reaches(first, a, r) && Waiting(r) && a <= Stream(ps) + payload
    ensures |a| + Need(r) <= |Stream(ps) + payload|
  {
    hide Reaches, Serialize;
    StreamCons(ps, payload);
    RoundTrip(ps[0]);
    NextFits(first, a, r, Serialize(ps[0]), Got(ps[0]), Stream(ps) + payload);
  }

  lemma {:induction false} SecondFits(
    ps: seq<Packet>, first: Reader, second: Reader, payload: bytes, b: bytes, r: Reader)
    requires Feeds(ps, first, second, payload) && |ps| == 2
    requires Reaches(second, b, r) && Waiting(r) && Serialize(ps[0]) + b <= Stream(ps) + payload
    ensures |Serialize(ps[0])| + |b| + Need(r) <= |Stream(ps) + payload|
  {
    hide Reaches, Serialize;
    StreamCons(ps, payload);
    var line := Stream(ps[1..]) + payload;
    PrefixCancels(Serialize(ps[0]), b, line);
    StreamCons(ps[1..], payload);
    assert ps[1..][0] == ps[1];
    RoundTrip(ps[1]);
    NextFits(second, b, r, Serialize(ps[1]), Got(ps[1]), line);
  }
}
