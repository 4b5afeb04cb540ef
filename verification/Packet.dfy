/**
 Packets and what a receiver accepts (service/packet.go, and the checks of receiveLoop in service/io.go).
 The JSON, compression and digest libraries and address parsing are parameters.
*/
module Packet {
  import opened Base

  type Byte = b: int | 0 <= b < 0x100

  type Bytes = seq<Byte>

  const MODE_ID_LENGTH := 1
  const DIGEST_LENGTH := 20

  datatype Mode = Mode(id: int, secret: Bytes)

  datatype Codec = Codec(encode: Node -> Bytes, decode: Bytes -> Option<Node>,
                         deflate: Bytes -> Bytes, inflate: Bytes -> Option<Bytes>,
                         digest: (Bytes, Bytes) -> Bytes)

  /** What the libraries promise. */
  ghost predicate Lossless(c: Codec) {
    (forall node :: c.decode(c.encode(node)) == Some(node)) &&
    (forall bytes :: c.deflate(bytes) != [] && c.inflate(c.deflate(bytes)) == Some(bytes)) &&
    (forall secret, message :: |c.digest(secret, message)| == DIGEST_LENGTH)
  }

  datatype Unmarshalled = Unmarshalled(node: Node) | TooShort | UnknownMode | Inauthentic | Undecodable

  /** The conversion of the mode id to a byte keeps its low bits. */
  function ModeByte(mode: Mode): Byte {
    mode.id % 0x100
  }

  /** What the digest covers. */
  function Message(c: Codec, mode: Mode, node: Node): Bytes {
    [ModeByte(mode)] + c.deflate(c.encode(node))
  }

  function UnmarshalPacket(c: Codec, data: Bytes, modes: map<int, Mode>): Unmarshalled {
    var messageLength := |data| - DIGEST_LENGTH;
    var compressedLength := messageLength - MODE_ID_LENGTH;
    if compressedLength < 1 then TooShort
    else if data[0] !in modes then UnknownMode
    else
      var message, digest := data[..messageLength], data[messageLength..];
      if c.digest(modes[data[0]].secret, message) != digest then Inauthentic
      else
        var inflated := c.inflate(data[MODE_ID_LENGTH..messageLength]);
        var node := if inflated.Some? then c.decode(inflated.value) else None;
        if node.Some? then Unmarshalled(node.value) else Undecodable
  }

  /** A marshalled packet decodes to its node exactly under a mode of that byte whose digest of it is the sender's. */
  lemma RoundTrip(c: Codec, mode: Mode, node: Node, modes: map<int, Mode>)
    requires Lossless(c)
    ensures var message := Message(c, mode, node);
      UnmarshalPacket(c, message + c.digest(mode.secret, message), modes) ==
      if ModeByte(mode) !in modes then UnknownMode
      else if c.digest(modes[ModeByte(mode)].secret, message) == c.digest(mode.secret, message) then Unmarshalled(node)
      else Inauthentic
  {
    var message := Message(c, mode, node);
    var data := message + c.digest(mode.secret, message);
    assert data[..|data| - DIGEST_LENGTH] == message && data[|data| - DIGEST_LENGTH..] == c.digest(mode.secret, message);
    assert data[MODE_ID_LENGTH..|message|] == c.deflate(c.encode(node));
  }

  /** Whoever knows the mode gets the node back, and nobody else; the first byte is the mode's id if that is a byte. */
  method MarshalPacket(c: Codec, mode: Mode, node: Node) returns (data: Bytes)
    ensures Lossless(c) ==> forall modes: map<int, Mode> ::
      ModeByte(mode) in modes && modes[ModeByte(mode)].secret == mode.secret ==>
        UnmarshalPacket(c, data, modes) == Unmarshalled(node)
    ensures Lossless(c) ==> forall modes: map<int, Mode> ::
      ModeByte(mode) !in modes ==> UnmarshalPacket(c, data, modes) == UnknownMode
    ensures Lossless(c) && 0 <= mode.id < 0x100 ==> forall modes: map<int, Mode> ::
      mode.id in modes && modes[mode.id] == mode ==> UnmarshalPacket(c, data, modes) == Unmarshalled(node)
    ensures 0 <= mode.id < 0x100 ==>
      var message: Bytes := [mode.id] + c.deflate(c.encode(node));
      data == message + c.digest(mode.secret, message)
    ensures data == Message(c, mode, node) + c.digest(mode.secret, Message(c, mode, node))
  {
    var buf: Bytes := [];
    buf := buf + [ModeByte(mode)];
    buf := buf + c.deflate(c.encode(node));
    assert buf == Message(c, mode, node);
    var sum := c.digest(mode.secret, buf);
    buf := buf + sum;
    data := buf;
    forall modes: map<int, Mode> | Lossless(c)
      ensures UnmarshalPacket(c, data, modes) ==
        if ModeByte(mode) !in modes then UnknownMode
        else if c.digest(modes[ModeByte(mode)].secret, Message(c, mode, node)) == sum then Unmarshalled(node)
        else Inauthentic
    {
      RoundTrip(c, mode, node, modes);
    }
  }

  /** An accepted packet is its message and the one digest of it under the mode's secret: no other digest passes. */
  lemma AcceptedIsAuthentic(c: Codec, data: Bytes, modes: map<int, Mode>)
    requires UnmarshalPacket(c, data, modes).Unmarshalled?
    ensures |data| >= 22 && data[0] in modes
    ensures var message := data[..|data| - 20];
      data == message + c.digest(modes[data[0]].secret, message) &&
      forall other: Bytes :: |other| == 20 && message + other != data ==>
        UnmarshalPacket(c, message + other, modes) == Inauthentic
  {
    var message := data[..|data| - DIGEST_LENGTH];
    assert data == message + data[|data| - DIGEST_LENGTH..];
    forall other: Bytes | |other| == DIGEST_LENGTH && message + other != data
      ensures UnmarshalPacket(c, message + other, modes) == Inauthentic
    {
      var forged := message + other;
      assert forged[..|forged| - DIGEST_LENGTH] == message && forged[|forged| - DIGEST_LENGTH..] == other;
    }
  }

  /** A receiver: the modes it knows, how it parses addresses, and which of them are global unicast. */
  datatype Receiver = Receiver(modes: map<int, Mode>, parseIP: IpAddr -> Option<Bytes>, unicast: Bytes -> bool)

  predicate VerifyOrigin(r: Receiver, node: Node, origin: Bytes) {
    r.parseIP(node.ipAddr) == Some(origin)
  }

  /** The checks between reading a datagram and updating the table. */
  function Accept(c: Codec, r: Receiver, data: Bytes, origin: Bytes, now: int): Option<Node> {
    if !r.unicast(origin) then None
    else
      match UnmarshalPacket(c, data, r.modes)
      case Unmarshalled(node) =>
        if VerifyOrigin(r, node, origin) && now - node.timeNs <= LATENCY_TOLERANCE then Some(node) else None
      case _ => None
  }

  /**
   What one instance sends another accepts, unchanged, exactly when it comes from the address it names, a
   global unicast one, within the tolerance, under a mode whose digest they agree on.
  */
  lemma SentIsAccepted(c: Codec, mode: Mode, node: Node, r: Receiver, origin: Bytes, now: int)
    requires Lossless(c)
    ensures var message := Message(c, mode, node);
      Accept(c, r, message + c.digest(mode.secret, message), origin, now) ==
      if r.unicast(origin) && r.parseIP(node.ipAddr) == Some(origin) && now <= node.timeNs + 15 * SECOND &&
         ModeByte(mode) in r.modes && c.digest(r.modes[ModeByte(mode)].secret, message) == c.digest(mode.secret, message)
      then Some(node) else None
  {
    RoundTrip(c, mode, node, r.modes);
  }
}
