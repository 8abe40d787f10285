// Canonical flow identity: the key of a bidirectional flow and the byte
// stream its identifier is hashed from.
module FlowKey {
  import opened Common
  import opened Packets

  datatype Direction = AToB | BToA

  datatype Key = Key(protocol: Protocol, a: Endpoint, b: Endpoint)

  function CompareAddr(a: Addr, b: Addr): (order: int) {
    if a.bits != b.bits then (if a.bits < b.bits then -1 else 1)
    else if a.value != b.value then (if a.value < b.value then -1 else 1)
    else 0
  }

  function CompareEndpoint(a: Endpoint, b: Endpoint): (order: int) {
    var addr := CompareAddr(a.addr, b.addr);
    if addr != 0 then addr
    else if a.port < b.port then -1
    else if a.port > b.port then 1
    else 0
  }

  function Canonicalize(e: Event): (r: (Key, Direction)) {
    if CompareEndpoint(e.source, e.destination) <= 0
    then (Key(e.protocol, e.source, e.destination), AToB)
    else (Key(e.protocol, e.destination, e.source), BToA)
  }

  // Shorter addresses first, then by value, then by port.
  predicate InOrder(a: Endpoint, b: Endpoint) {
    || a.addr.bits < b.addr.bits
    || (a.addr.bits == b.addr.bits && a.addr.value < b.addr.value)
    || (a.addr == b.addr && a.port <= b.port)
  }

  // Both directions of a flow have one key, whose endpoints are in order; the
  // directions are told apart unless the two endpoints are the same.
  lemma CanonicalKeyIgnoresDirection(e: Event)
    ensures Canonicalize(Reverse(e)).0 == Canonicalize(e).0
    ensures InOrder(Canonicalize(e).0.a, Canonicalize(e).0.b)
    ensures {Canonicalize(e).0.a, Canonicalize(e).0.b} == {e.source, e.destination}
    ensures Canonicalize(e).1 == AToB <==> e.source == Canonicalize(e).0.a
    ensures Canonicalize(Reverse(e)).1 != Canonicalize(e).1 <==> e.source != e.destination
  {
  }

  // Two packets share a key exactly if they have the same protocol and the
  // same pair of endpoints, in either order.
  lemma KeyIdentifiesTheConversation(e: Event, f: Event)
    ensures Canonicalize(e).0 == Canonicalize(f).0 <==>
            && e.protocol == f.protocol
            && (   (e.source == f.source && e.destination == f.destination)
                || (e.source == f.destination && e.destination == f.source))
  {
  }

  // ------------------------------------------------------------- hash stream

  const LENGTH_LIMIT: int := 0x1_0000_0000

  function BigEndian(value: nat, width: nat): (bytes: seq<Byte>)
    ensures |bytes| == width
  {
    if width == 0 then [] else BigEndian(value / 256, width - 1) + [value % 256]
  }

  function WriteString(text: seq<Byte>): (bytes: seq<Byte>) {
    BigEndian(|text|, 4) + text
  }

  // The addresses there are: IPv4, IPv6 and the invalid one.
  predicate IsAddress(a: Addr) {
    (a.bits == 0 || a.bits == 32 || a.bits == 128) && a.value < Power256(a.bits / 8)
  }

  predicate IsEndpoint(e: Endpoint) {
    IsAddress(e.addr) && e.port < 65536
  }

  predicate IsKey(k: Key) {
    IsEndpoint(k.a) && IsEndpoint(k.b) && !k.protocol.Unsupported?
  }

  // The text form of addresses; distinct addresses have distinct texts.
  type Spelling = Addr -> seq<Byte>

  ghost predicate Faithful(spelling: Spelling) {
    && (forall a, b | IsAddress(a) && IsAddress(b) :: spelling(a) == spelling(b) ==> a == b)
    && (forall a | IsAddress(a) :: |spelling(a)| < LENGTH_LIMIT)
  }

  // ASCII text as bytes.
  function Ascii(text: string): (bytes: seq<Byte>)
    requires forall i | 0 <= i < |text| :: text[i] as int < 128
  {
    seq<Byte>(|text|, i requires 0 <= i < |text| => text[i] as int)
  }

  function ProtocolText(p: Protocol): (bytes: seq<Byte>) {
    match p
    case Tcp => Ascii("tcp")
    case Udp => Ascii("udp")
    case Icmp => Ascii("icmp")
    case Icmp6 => Ascii("icmp6")
    case OtherIp => Ascii("other")
    case Unsupported(_) => []
  }

  lemma ProtocolTextsDiffer(p: Protocol, q: Protocol)
    requires !p.Unsupported? && !q.Unsupported? && ProtocolText(p) == ProtocolText(q)
    ensures p == q
  {
    var pt, qt := ProtocolText(p), ProtocolText(q);
    assert pt[0] == qt[0];
    assert p.Tcp? ==> pt[0] == 't' as int;
    assert q.Tcp? ==> qt[0] == 't' as int;
    assert p.Udp? ==> pt[0] == 'u' as int;
    assert q.Udp? ==> qt[0] == 'u' as int;
    assert p.OtherIp? ==> pt[0] == 'o' as int;
    assert q.OtherIp? ==> qt[0] == 'o' as int;
  }

  function WriteEndpoint(spelling: Spelling, endpoint: Endpoint): (bytes: seq<Byte>) {
    WriteString(spelling(endpoint.addr)) + BigEndian(endpoint.port, 2)
  }

  // What is fed to the hash for a flow identifier.
  function Stream(spelling: Spelling, seed: seq<Byte>, key: Key): (bytes: seq<Byte>) {
    WriteString(seed)
    + (WriteString(ProtocolText(key.protocol))
       + (WriteEndpoint(spelling, key.a) + (WriteEndpoint(spelling, key.b) + [])))
  }

  function Power256(width: nat): (power: nat)
    ensures power >= 1
  {
    if width == 0 then 1 else 256 * Power256(width - 1)
  }

  // The number that bytes spell, the most significant first.
  function Spelled(bytes: seq<Byte>): (value: nat) {
    if bytes == [] then 0 else Spelled(bytes[..|bytes| - 1]) * 256 + bytes[|bytes| - 1]
  }

  lemma {:induction false} BigEndianSpells(value: nat, width: nat)
    requires value < Power256(width)
    ensures Spelled(BigEndian(value, width)) == value
    decreases width
  {
    if width > 0 {
      BigEndianSpells(value / 256, width - 1);
      assert BigEndian(value, width)[..width - 1] == BigEndian(value / 256, width - 1);
    }
  }

  lemma BigEndianInjective(x: nat, y: nat, width: nat)
    requires BigEndian(x, width) == BigEndian(y, width) && x < Power256(width) && y < Power256(width)
    ensures x == y
  {
    BigEndianSpells(x, width);
    BigEndianSpells(y, width);
  }

  // A length-prefixed string can be cut off the front of a stream in one way.
  lemma StringSplits(s: seq<Byte>, t: seq<Byte>, x: seq<Byte>, y: seq<Byte>)
    requires |s| < LENGTH_LIMIT && |t| < LENGTH_LIMIT
    requires WriteString(s) + x == WriteString(t) + y
    ensures s == t && x == y
  {
    var whole := WriteString(s) + x;
    assert whole[..4] == BigEndian(|s|, 4);
    assert (WriteString(t) + y)[..4] == BigEndian(|t|, 4);
    assert Power256(4) == LENGTH_LIMIT by {
      assert Power256(1) == 256 && Power256(2) == 65536 && Power256(3) == 16777216;
    }
    BigEndianInjective(|s|, |t|, 4);
    assert whole[4..] == s + x && (WriteString(t) + y)[4..] == t + y;
    assert (s + x)[..|s|] == s && (t + y)[..|s|] == t;
    assert (s + x)[|s|..] == x && (t + y)[|s|..] == y;
  }

  lemma EndpointSplits(spelling: Spelling, a: Endpoint, b: Endpoint, x: seq<Byte>, y: seq<Byte>)
    requires Faithful(spelling) && IsEndpoint(a) && IsEndpoint(b)
    requires WriteEndpoint(spelling, a) + x == WriteEndpoint(spelling, b) + y
    ensures a == b && x == y
  {
    var pa, pb := BigEndian(a.port, 2), BigEndian(b.port, 2);
    var sa, sb := spelling(a.addr), spelling(b.addr);
    assert WriteEndpoint(spelling, a) + x == WriteString(sa) + (pa + x);
    assert WriteEndpoint(spelling, b) + y == WriteString(sb) + (pb + y);
    StringSplits(sa, sb, pa + x, pb + y);
    assert (pa + x)[..2] == pa && (pb + y)[..2] == pb;
    assert (pa + x)[2..] == x && (pb + y)[2..] == y;
    assert Power256(2) == 65536 by { assert Power256(1) == 256; }
    BigEndianInjective(a.port, b.port, 2);
  }

  // Different seeds or keys are hashed from different streams, so flow
  // identifiers can only collide inside the hash.
  lemma StreamInjective(spelling: Spelling, s: seq<Byte>, t: seq<Byte>, k: Key, l: Key)
    requires Faithful(spelling) && |s| < LENGTH_LIMIT && |t| < LENGTH_LIMIT
    requires IsKey(k) && IsKey(l)
    ensures Stream(spelling, s, k) == Stream(spelling, t, l) <==> s == t && k == l
  {
    if Stream(spelling, s, k) == Stream(spelling, t, l) {
      var kb := WriteEndpoint(spelling, k.b) + [];
      var lb := WriteEndpoint(spelling, l.b) + [];
      var ka := WriteEndpoint(spelling, k.a) + kb;
      var la := WriteEndpoint(spelling, l.a) + lb;
      var kp, lp := ProtocolText(k.protocol), ProtocolText(l.protocol);
      StringSplits(s, t, WriteString(kp) + ka, WriteString(lp) + la);
      StringSplits(kp, lp, ka, la);
      ProtocolTextsDiffer(k.protocol, l.protocol);
      EndpointSplits(spelling, k.a, l.a, kb, lb);
      EndpointSplits(spelling, k.b, l.b, [], []);
    }
  }

  // Addresses by their bytes, which tell the bit length too.
  function ByBytes(a: Addr): (bytes: seq<Byte>) {
    BigEndian(a.value, a.bits / 8)
  }

  // The hypothesis on spellings can be met.
  lemma ByBytesIsFaithful()
    ensures Faithful(ByBytes)
  {
    forall a, b | IsAddress(a) && IsAddress(b) && ByBytes(a) == ByBytes(b)
      ensures a == b
    {
      assert |ByBytes(a)| == a.bits / 8 && |ByBytes(b)| == b.bits / 8;
      BigEndianInjective(a.value, b.value, a.bits / 8);
    }
  }
}
