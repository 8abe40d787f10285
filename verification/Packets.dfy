// Normalised packet metadata.
module Packets {
  datatype Protocol = Tcp | Udp | Icmp | Icmp6 | OtherIp | Unsupported(name: string)

  datatype TcpFlag = Fin | Syn | Rst | Psh | Ack | Urg

  // An IP address as its bit length (0 when invalid) and its value.
  datatype Addr = Addr(bits: nat, value: nat)

  datatype Endpoint = Endpoint(addr: Addr, port: nat)

  datatype Event = Event(
    capturedAt: int,
    source: Endpoint,
    destination: Endpoint,
    protocol: Protocol,
    wireLength: int,
    capturedLength: int,
    payloadLength: int,
    flags: set<TcpFlag>)

  // The zero time of the program.
  const ZERO_TIME: int := 0

  predicate ValidEvent(e: Event) {
    && e.source.addr.bits != 0 && e.destination.addr.bits != 0
    && 0 <= e.payloadLength <= e.capturedLength <= e.wireLength
    && !e.protocol.Unsupported?
  }

  // The same packet seen in the opposite direction.
  function Reverse(e: Event): (r: Event) {
    e.(source := e.destination, destination := e.source)
  }
}
