/**
 The TCP wire format: a four-byte length, then the packet, which may be compressed behind the prefix "ABG:". The
 compression library is represented by the functions it offers.
 */
module Framing {
  import opened Clients
  import opened Octets

  const HEADER_SIZE := 4
  const UNAUTHENTICATED_LIMIT := 4096
  const LIMIT := 100 * 1024 * 1024
  const COMPRESS_ABOVE := 400
  const STARTING_BUFFER := 15 * 1024 * 1024
  const MAX_BUFFER := 30 * 1024 * 1024
  const NEGATIVE_HEADER := "Invalid packet - header negative"
  const HEADER_TOO_LARGE := "Header size limit exceeded"
  const ABG: Bytes := [65, 66, 71, 58]

  /*******************************************************************************
   *  The header: a little-endian 32-bit number with a sign
   *******************************************************************************/

  function Int32Bytes(n: int): (bytes: Bytes)
    ensures |bytes| == 4
  {
    [(n % 0x100) as Byte, (n / 0x100 % 0x100) as Byte, (n / 0x1_0000 % 0x100) as Byte, (n / 0x100_0000 % 0x100) as Byte]
  }

  function Int32Of(bytes: Bytes): (n: int)
    requires |bytes| == HEADER_SIZE
    ensures -0x8000_0000 <= n < 0x8000_0000
  {
    var u := bytes[0] as int + 0x100 * bytes[1] as int + 0x1_0000 * bytes[2] as int + 0x100_0000 * bytes[3] as int;
    if u < 0x8000_0000 then u else u - 0x1_0000_0000
  }

  /** The least significant byte comes first. */
  lemma LittleEndian(n: nat)
    requires n < 0x1_0000_0000
    ensures
      var b := Int32Bytes(n);
      n == b[0] as int + b[1] as int * 256 + b[2] as int * 65536 + b[3] as int * 16777216
  {
    var a, b, c := n / 0x100, n / 0x1_0000, n / 0x100_0000;
    assert b == a / 0x100 && c == b / 0x100;
    assert n == n % 0x100 + 0x100 * (a % 0x100) + 0x1_0000 * (b % 0x100) + 0x100_0000 * c;
  }

  /** Lengths that do not fit come out negative. */
  lemma Int32RoundTrip(n: int)
    requires -0x8000_0000 <= n < 0x1_0000_0000
    ensures Int32Of(Int32Bytes(n)) == if n < 0x8000_0000 then n else n - 0x1_0000_0000
  {
    var a, b, c := n / 0x100, n / 0x1_0000, n / 0x100_0000;
    assert b == a / 0x100 && c == b / 0x100;
    assert n == n % 0x100 + 0x100 * (a % 0x100) + 0x1_0000 * (b % 0x100) + 0x100_0000 * c;
    assert -0x80 <= c < 0x100;
  }

  /*******************************************************************************
   *  Decompression
   *******************************************************************************/

  /** What the library answers when asked to fill a buffer of a given capacity. */
  datatype Reply = Filled(output: Bytes) | BufferTooSmall | DataError | OtherError

  datatype Codec = Codec(compress: Bytes -> Bytes, uncompress: (Bytes, nat) -> Reply)

  datatype Decompressed = Plain(data: Bytes) | InvalidData | TooLarge | Failed

  ghost predicate WithinCapacity(codec: Codec, input: Bytes) {
    forall n: nat :: codec.uncompress(input, n).Filled? ==> |codec.uncompress(input, n).output| <= n
  }

  /** The input holds this output: any buffer that is large enough receives it, and no other does. */
  ghost predicate Holds(codec: Codec, input: Bytes, output: Bytes) {
    forall n: nat :: codec.uncompress(input, n) == if |output| <= n then Filled(output) else BufferTooSmall
  }

  function Min(a: int, b: int): int {
    if a <= b then a else b
  }

  function Max(a: int, b: int): int {
    if a >= b then a else b
  }

  function Final(reply: Reply): Decompressed {
    match reply
    case Filled(output) => Plain(output)
    case BufferTooSmall => TooLarge
    case DataError => InvalidData
    case OtherError => Failed
  }

  function FirstBuffer(input: Bytes): nat {
    Min(|input| * 5, STARTING_BUFFER)
  }

  /** One attempt, and if its buffer was too small, one with the largest buffer allowed. */
  function Decompress(codec: Codec, input: Bytes): Decompressed {
    var first := codec.uncompress(input, FirstBuffer(input));
    if first.BufferTooSmall? then Final(codec.uncompress(input, MAX_BUFFER)) else Final(first)
  }

  method DeComp(codec: Codec, input: Bytes) returns (result: Decompressed, ghost buffers: seq<nat>)
    ensures result == Decompress(codec, input)
    ensures 1 <= |buffers| <= 2 && buffers[0] == (if 5 * |input| < 15728640 then 5 * |input| else 15728640)
    ensures |buffers| == 2 ==> buffers[1] == 31457280 && codec.uncompress(input, buffers[0]).BufferTooSmall?
  {
    var size: nat := Min(|input| * 5, STARTING_BUFFER);
    buffers := [size];
    while true
      invariant |buffers| == 1 ==> size == FirstBuffer(input)
      invariant |buffers| == 2 ==> size == MAX_BUFFER && codec.uncompress(input, FirstBuffer(input)).BufferTooSmall?
      invariant 1 <= |buffers| <= 2 && buffers[0] == FirstBuffer(input)
      invariant |buffers| == 2 ==> buffers[1] == MAX_BUFFER
      decreases MAX_BUFFER - size
    {
      var reply := codec.uncompress(input, size);
      match reply {
        case BufferTooSmall =>
          if size >= MAX_BUFFER {
            return TooLarge, buffers;
          }
          size := Max(size * 2, MAX_BUFFER);
          buffers := buffers + [size];
        case DataError =>
          return InvalidData, buffers;
        case OtherError =>
          return Failed, buffers;
        case Filled(output) =>
          return Plain(output), buffers;
      }
    }
  }

  /** Exactly the outputs of up to 30 MiB are accepted, whatever their compression ratio. */
  lemma AcceptsExactly(codec: Codec, input: Bytes, output: Bytes)
    requires Holds(codec, input, output)
    ensures Decompress(codec, input) == if |output| <= 31457280 then Plain(output) else TooLarge
  {
    assert codec.uncompress(input, FirstBuffer(input)).Filled? <==> |output| <= FirstBuffer(input);
    assert codec.uncompress(input, MAX_BUFFER).Filled? <==> |output| <= MAX_BUFFER;
  }

  /** Not even malformed input makes the result larger than that. */
  lemma NeverTooLarge(codec: Codec, input: Bytes)
    requires WithinCapacity(codec, input) && Decompress(codec, input).Plain?
    ensures |Decompress(codec, input).data| <= 31457280
  {
    assert codec.uncompress(input, FirstBuffer(input)).Filled? ==>
        |codec.uncompress(input, FirstBuffer(input)).output| <= FirstBuffer(input);
    assert codec.uncompress(input, MAX_BUFFER).Filled? ==> |codec.uncompress(input, MAX_BUFFER).output| <= MAX_BUFFER;
  }

  /*******************************************************************************
   *  Sending
   *******************************************************************************/

  function CompressProperly(codec: Codec, data: Bytes): Bytes {
    ABG + codec.compress(data)
  }

  /** What TCPSend writes. */
  function Framed(data: Bytes): Bytes {
    Int32Bytes(|data|) + data
  }

  /** A packet, and whether it goes through SendLarge or straight to TCPSend. */
  datatype Sent = Sent(packet: Bytes, large: bool)

  function Payload(codec: Codec, sent: Sent): Bytes {
    if sent.large && |sent.packet| > COMPRESS_ABOVE then CompressProperly(codec, sent.packet) else sent.packet
  }

  /** The choice a reliable response makes. */
  function Responded(msg: Bytes): Sent
    requires msg != []
  {
    Sent(msg, msg[0] == 'O' as Byte || msg[0] == 'T' as Byte || |msg| > 1000)
  }

  function Responses(msgs: seq<Bytes>): seq<Sent>
    requires [] !in msgs
  {
    seq(|msgs|, i requires 0 <= i < |msgs| => Responded(msgs[i]))
  }

  function Wire(codec: Codec, sent: seq<Sent>): Bytes {
    if sent == [] then [] else Framed(Payload(codec, sent[0])) + Wire(codec, sent[1..])
  }

  function Packets(sent: seq<Sent>): (packets: seq<Bytes>)
    ensures |packets| == |sent|
  {
    seq(|sent|, i requires 0 <= i < |sent| => sent[i].packet)
  }

  /*******************************************************************************
   *  Receiving
   *******************************************************************************/

  /** Got, a reason to kick the client, or nothing: the stream ended or the packet could not be decompressed. */
  datatype Received = Got(data: Bytes) | Kick(reason: string) | NoData

  function HeaderLimit(name: string): int {
    if name == "" then UNAUTHENTICATED_LIMIT else LIMIT
  }

  predicate Compressed(data: Bytes) {
    |data| >= |ABG| && data[..|ABG|] == ABG
  }

  function Unpack(codec: Codec, data: Bytes): Received {
    if Compressed(data) then
      match Decompress(codec, data[|ABG|..])
      case Plain(output) => Got(output)
      case _ => NoData
    else Got(data)
  }

  /** One packet from the front of the byte stream, and the bytes after it. */
  function Receive(codec: Codec, limit: int, bytes: Bytes): (r: (Received, Bytes))
    ensures r.0.Got? ==> |r.1| + HEADER_SIZE <= |bytes|
  {
    if |bytes| < HEADER_SIZE then (NoData, []) else
    var header := Int32Of(bytes[..HEADER_SIZE]);
    var rest := bytes[HEADER_SIZE..];
    if header < 0 then (Kick(NEGATIVE_HEADER), rest)
    else if header >= limit then (Kick(HEADER_TOO_LARGE), rest)
    else if |rest| < header then (NoData, [])
    else (Unpack(codec, rest[..header]), rest[header..])
  }

  /** What the client's receive loop hands to the parser before it gives the client up. */
  function ReceiveAll(codec: Codec, limit: int, bytes: Bytes): seq<Bytes>
    decreases |bytes|
  {
    match Receive(codec, limit, bytes)
    case (Got(data), rest) => if data == [] then [] else [data] + ReceiveAll(codec, limit, rest)
    case _ => []
  }

  function Flat(chunks: seq<Bytes>): Bytes {
    if chunks == [] then [] else chunks[0] + Flat(chunks[1..])
  }

  /** The incoming side of a socket: the bytes arrive in chunks of any size. */
  class Stream {
    var chunks: seq<Bytes>

    constructor (chunks: seq<Bytes>)
      ensures Rest() == Flat(chunks)
    {
      this.chunks := chunks;
    }

    ghost function Rest(): Bytes
      reads this
    {
      Flat(chunks)
    }

    method Read(n: nat) returns (ok: bool, data: Bytes)
      modifies this
      ensures ok <==> n <= |old(Rest())|
      ensures ok ==> data == old(Rest())[..n] && Rest() == old(Rest())[n..]
      ensures !ok ==> Rest() == []
    {
      data := [];
      while |data| < n && chunks != []
        invariant data + Rest() == old(Rest()) && |data| <= n
        decreases n - |data|, |chunks|
      {
        var k := Min(n - |data|, |chunks[0]|);
        data := data + chunks[0][..k];
        if k < |chunks[0]| {
          chunks := [chunks[0][k..]] + chunks[1..];
        } else {
          chunks := chunks[1..];
        }
      }
      ok := |data| == n;
    }
  }

  function Characters(s: string): Bytes {
    seq(|s|, i requires 0 <= i < |s| => (s[i] as int % 0x100) as Byte)
  }

  /** What a kick writes to the socket: its reason, but nothing to a client that is syncing. */
  function KickBytes(syncing: bool, reason: string): Bytes {
    if syncing then [] else Framed(Characters("K" + reason))
  }

  method ClientKick(c: Client, reason: string) returns (written: Bytes)
    modifies c`disconnectState, c`socketOpen
    ensures written == KickBytes(c.isSyncing, reason)
    ensures old(c.disconnectState) == Connected ==> c.disconnectState == Disconnected
  {
    written := KickBytes(c.isSyncing, reason);
    var _ := c.Disconnect();
  }

  /** The first bytes of a compressed packet. */
  predicate StartsABG(data: Bytes) {
    |data| >= 4 && data[..4] == Characters("ABG:")
  }

  lemma CompressedIff(data: Bytes)
    ensures Compressed(data) <==> StartsABG(data)
  {
    assert Characters("ABG:") == ABG;
  }

  /** Why a client that announces so many bytes is kicked; its 32-bit header may be negative. */
  function ReasonFor(size: nat): string {
    if size < 0x8000_0000 then "Header size limit exceeded" else "Invalid packet - header negative"
  }

  /** A plain packet's frame is received as it is below the limit of the client's kind, and gets it kicked otherwise. */
  lemma PlainOrKick(name: string, codec: Codec, bytes: Bytes)
    ensures forall payload, rest | bytes == Framed(payload) + rest ::
      var limit := if name == "" then 4096 else 104857600;
      && (|payload| < limit && !StartsABG(payload) ==>
            Receive(codec, HeaderLimit(name), bytes) == (Got(payload), rest))
      && (limit <= |payload| < 0x1_0000_0000 ==>
            Receive(codec, HeaderLimit(name), bytes).0 == Kick(ReasonFor(|payload|)))
  {
    forall payload, rest | bytes == Framed(payload) + rest
      ensures
        var limit := if name == "" then 4096 else 104857600;
        && (|payload| < limit && !StartsABG(payload) ==>
              Receive(codec, HeaderLimit(name), bytes) == (Got(payload), rest))
        && (limit <= |payload| < 0x1_0000_0000 ==>
              Receive(codec, HeaderLimit(name), bytes).0 == Kick(ReasonFor(|payload|)))
    {
      CompressedIff(payload);
      if |payload| < HeaderLimit(name) {
        FrameReceived(codec, HeaderLimit(name), payload, rest);
      } else if |payload| < 0x1_0000_0000 {
        FrameRejected(codec, HeaderLimit(name), payload, rest);
      }
    }
  }

  /** `written` is what goes out meanwhile. */
  method ReceiveFrame(c: Client, stream: Stream, codec: Codec) returns (data: Bytes, written: Bytes)
    modifies stream, c`disconnectState, c`socketOpen
    ensures old(c.disconnectState) == Connected ==>
      var (received, rest) := Receive(codec, HeaderLimit(c.name), old(stream.Rest()));
      && data == (if received.Got? then received.data else [])
      && c.disconnectState == (if received.Kick? then Disconnected else Connected)
      && stream.Rest() == rest
      && written == (if received.Kick? then KickBytes(c.isSyncing, received.reason) else [])
    ensures old(c.disconnectState) != Connected ==>
      data == [] && written == [] && c.disconnectState == old(c.disconnectState) && stream.Rest() == old(stream.Rest())
  {
    data, written := [], [];
    if c.disconnectState != Connected {
      return;
    }
    var ok, headerData := stream.Read(HEADER_SIZE);
    if !ok {
      return;
    }
    var header := Int32Of(headerData);
    if header < 0 {
      written := ClientKick(c, NEGATIVE_HEADER);
      return;
    }
    if header >= HeaderLimit(c.name) {
      written := ClientKick(c, HEADER_TOO_LARGE);
      return;
    }
    ok, data := stream.Read(header);
    if !ok {
      return [], [];
    }
    if Compressed(data) {
      var result, _ := DeComp(codec, data[|ABG|..]);
      data := if result.Plain? then result.data else [];
    }
  }

  /** One packet: plain ones are received as they are below 4096 bytes, or 100 MiB for a client with a name. */
  method TCPRcv(c: Client, stream: Stream, codec: Codec) returns (data: Bytes, written: Bytes)
    modifies stream, c`disconnectState, c`socketOpen
    ensures old(c.disconnectState) == Connected ==>
      var (received, rest) := Receive(codec, HeaderLimit(c.name), old(stream.Rest()));
      && data == (if received.Got? then received.data else [])
      && c.disconnectState == (if received.Kick? then Disconnected else Connected)
      && stream.Rest() == rest
      && written == (if received.Kick? then KickBytes(c.isSyncing, received.reason) else [])
    ensures old(c.disconnectState) != Connected ==>
      data == [] && written == [] && c.disconnectState == old(c.disconnectState) && stream.Rest() == old(stream.Rest())
    ensures old(c.disconnectState) == Connected ==>
      forall payload, rest | old(stream.Rest()) == Framed(payload) + rest ::
        && (|payload| < (if c.name == "" then 4096 else 104857600) && !StartsABG(payload) ==>
              data == payload && c.disconnectState == Connected && stream.Rest() == rest)
        && ((if c.name == "" then 4096 else 104857600) <= |payload| < 0x1_0000_0000 ==>
              && data == [] && c.disconnectState == Disconnected
              && written == if c.isSyncing then [] else Framed(Characters("K" + ReasonFor(|payload|))))
  {
    PlainOrKick(c.name, codec, stream.Rest());
    data, written := ReceiveFrame(c, stream, codec);
  }

  /** One turn of the receive loop. */
  lemma ReceivedOne(codec: Codec, limit: int, parsed: seq<Bytes>, bytes: Bytes, data: Bytes, rest: Bytes)
    requires
      var (received, after) := Receive(codec, limit, bytes);
      rest == after && data == if received.Got? then received.data else []
    ensures parsed + ReceiveAll(codec, limit, bytes)
      == if data == [] then parsed else (parsed + [data]) + ReceiveAll(codec, limit, rest)
  {
  }

  /** A named client's packets all arrive, up to 100 MiB of payload each. */
  lemma NamedRoundTrip(codec: Codec, bytes: Bytes)
    ensures forall sent | AllSendable(codec, 104857600, sent) && bytes == Wire(codec, sent) ::
      ReceiveAll(codec, 104857600, bytes) == Packets(sent)
  {
    forall sent | AllSendable(codec, 104857600, sent) && bytes == Wire(codec, sent)
      ensures ReceiveAll(codec, 104857600, bytes) == Packets(sent)
    {
      assert Flat([bytes]) == bytes;
      StreamRoundTrip(codec, 104857600, sent, [bytes]);
    }
  }

  /** The receive loop: every packet up to the first that is empty or fails; then the client is disconnected. */
  method TCPClient(c: Client, stream: Stream, codec: Codec) returns (parsed: seq<Bytes>)
    requires c.disconnectState == Connected
    modifies stream, c`disconnectState, c`socketOpen
    ensures parsed == ReceiveAll(codec, HeaderLimit(c.name), old(stream.Rest()))
    ensures c.disconnectState == Disconnected
    ensures c.name != "" ==>
      forall sent | AllSendable(codec, 104857600, sent) && old(stream.Rest()) == Wire(codec, sent) ::
        parsed == Packets(sent)
  {
    NamedRoundTrip(codec, stream.Rest());
    parsed := [];
    ghost var limit, all := HeaderLimit(c.name), ReceiveAll(codec, HeaderLimit(c.name), stream.Rest());
    while c.disconnectState == Connected
      invariant c.disconnectState != Disconnecting
      invariant c.disconnectState == Connected ==> parsed + ReceiveAll(codec, limit, stream.Rest()) == all
      invariant c.disconnectState == Disconnected ==> parsed == all
      decreases c.disconnectState == Connected, |stream.Rest()|
    {
      ghost var before := stream.Rest();
      var data, _ := TCPRcv(c, stream, codec);
      ReceivedOne(codec, limit, parsed, before, data, stream.Rest());
      if data == [] {
        var _ := c.Disconnect();
      } else {
        parsed := parsed + [data];
      }
    }
  }

  /*******************************************************************************
   *  What is sent is what is received
   *******************************************************************************/

  lemma FrameReceived(codec: Codec, limit: int, payload: Bytes, rest: Bytes)
    requires |payload| < limit <= LIMIT
    ensures Receive(codec, limit, Framed(payload) + rest) == (Unpack(codec, payload), rest)
  {
    var bytes := Framed(payload) + rest;
    assert bytes[..HEADER_SIZE] == Int32Bytes(|payload|);
    assert bytes[HEADER_SIZE..] == payload + rest;
    Int32RoundTrip(|payload|);
  }

  /** A payload at or over the limit gets its sender kicked, up to the size where the header wraps to zero. */
  lemma FrameRejected(codec: Codec, limit: int, payload: Bytes, rest: Bytes)
    requires limit <= |payload| < 0x1_0000_0000 && limit <= LIMIT
    ensures Receive(codec, limit, Framed(payload) + rest).0
      == Kick(if |payload| < 0x8000_0000 then HEADER_TOO_LARGE else NEGATIVE_HEADER)
  {
    var bytes, n := Framed(payload) + rest, |payload|;
    assert bytes[..HEADER_SIZE] == Int32Bytes(n);
    Int32RoundTrip(n);
  }

  /** Exactly when an uncompressed packet arrives as it was sent. */
  lemma ArrivesIff(codec: Codec, limit: int, packet: Bytes, rest: Bytes)
    requires |packet| < 0x1_0000_0000 && limit <= LIMIT
    ensures Receive(codec, limit, Framed(packet) + rest).0 == Got(packet) <==>
      |packet| < limit && (Compressed(packet) ==> Decompress(codec, packet[|ABG|..]) == Plain(packet))
  {
    if |packet| < limit {
      FrameReceived(codec, limit, packet, rest);
    } else {
      FrameRejected(codec, limit, packet, rest);
    }
  }

  /** A packet the wire can carry; what the library compressed must hold the packet. */
  ghost predicate Sendable(codec: Codec, limit: int, sent: Sent) {
    && sent.packet != []
    && !Compressed(sent.packet)
    && |Payload(codec, sent)| < limit
    && (sent.large && |sent.packet| > COMPRESS_ABOVE ==>
          |sent.packet| <= 31457280 && Holds(codec, codec.compress(sent.packet), sent.packet))
  }

  lemma SendableReceived(codec: Codec, limit: int, sent: Sent, rest: Bytes)
    requires Sendable(codec, limit, sent) && limit <= LIMIT
    ensures Receive(codec, limit, Framed(Payload(codec, sent)) + rest) == (Got(sent.packet), rest)
  {
    FrameReceived(codec, limit, Payload(codec, sent), rest);
    if sent.large && |sent.packet| > COMPRESS_ABOVE {
      AcceptsExactly(codec, codec.compress(sent.packet), sent.packet);
      assert Payload(codec, sent)[|ABG|..] == codec.compress(sent.packet);
    }
  }

  lemma CutWire(codec: Codec, sent: seq<Sent>, cut: nat)
    requires sent != [] && |Framed(Payload(codec, sent[0]))| <= cut <= |Wire(codec, sent)|
    ensures
      var frame := Framed(Payload(codec, sent[0]));
      Wire(codec, sent)[..cut] == frame + Wire(codec, sent[1..])[..cut - |frame|]
  {
  }

  lemma ReceivedFirst(codec: Codec, limit: int, bytes: Bytes, data: Bytes, rest: Bytes)
    requires Receive(codec, limit, bytes) == (Got(data), rest) && data != []
    ensures ReceiveAll(codec, limit, bytes) == [data] + ReceiveAll(codec, limit, rest)
  {
  }

  lemma FirstThenRest(codec: Codec, limit: int, sent: seq<Sent>, cut: nat)
    requires sent != [] && Sendable(codec, limit, sent[0]) && limit <= LIMIT
    requires |Framed(Payload(codec, sent[0]))| <= cut <= |Wire(codec, sent)|
    ensures
      var n := cut - |Framed(Payload(codec, sent[0]))|;
      ReceiveAll(codec, limit, Wire(codec, sent)[..cut])
      == [sent[0].packet] + ReceiveAll(codec, limit, Wire(codec, sent[1..])[..n])
  {
    var rest := Wire(codec, sent[1..])[..cut - |Framed(Payload(codec, sent[0]))|];
    CutWire(codec, sent, cut);
    SendableReceived(codec, limit, sent[0], rest);
    ReceivedFirst(codec, limit, Wire(codec, sent)[..cut], sent[0].packet, rest);
  }

  lemma PrefixCons(codec: Codec, sent: seq<Sent>, n: nat)
    requires n < |sent|
    ensures Wire(codec, sent[..n + 1]) == Framed(Payload(codec, sent[0])) + Wire(codec, sent[1..][..n])
    ensures Packets(sent[..n + 1]) == [sent[0].packet] + Packets(sent[1..][..n])
  {
    assert sent[..n + 1][1..] == sent[1..][..n];
  }

  ghost predicate AllSendable(codec: Codec, limit: int, sent: seq<Sent>) {
    forall i | 0 <= i < |sent| :: Sendable(codec, limit, sent[i])
  }

  /** Exactly the first n packets have arrived completely within the first `cut` bytes, and they are received. */
  ghost predicate Delivered(codec: Codec, limit: int, sent: seq<Sent>, cut: nat, n: nat)
    requires cut <= |Wire(codec, sent)| && n <= |sent|
  {
    && ReceiveAll(codec, limit, Wire(codec, sent)[..cut]) == Packets(sent[..n])
    && |Wire(codec, sent[..n])| <= cut
    && (n < |sent| ==> cut < |Wire(codec, sent[..n + 1])|)
  }

  lemma DeliveredCons(codec: Codec, limit: int, sent: seq<Sent>, cut: nat, m: nat)
    requires sent != [] && Sendable(codec, limit, sent[0]) && limit <= LIMIT && m < |sent|
    requires |Framed(Payload(codec, sent[0]))| <= cut <= |Wire(codec, sent)|
    requires Delivered(codec, limit, sent[1..], cut - |Framed(Payload(codec, sent[0]))|, m)
    ensures Delivered(codec, limit, sent, cut, m + 1)
  {
    FirstThenRest(codec, limit, sent, cut);
    PrefixCons(codec, sent, m);
    if m + 1 < |sent| {
      PrefixCons(codec, sent, m + 1);
    }
  }

  lemma DeliveredNone(codec: Codec, limit: int, sent: seq<Sent>, cut: nat)
    requires sent != [] && Sendable(codec, limit, sent[0]) && limit <= LIMIT
    requires cut < |Framed(Payload(codec, sent[0]))| && cut <= |Wire(codec, sent)|
    ensures Delivered(codec, limit, sent, cut, 0)
  {
    CutFrame(codec, limit, Payload(codec, sent[0]), cut);
    PrefixCons(codec, sent, 0);
    assert Wire(codec, sent)[..cut] == Framed(Payload(codec, sent[0]))[..cut];
  }

  /** A stream cut off anywhere delivers exactly the packets whose frames have arrived completely. */
  lemma {:induction false} CutOffReceived(codec: Codec, limit: int, sent: seq<Sent>, cut: nat) returns (n: nat)
    requires AllSendable(codec, limit, sent) && limit <= LIMIT && cut <= |Wire(codec, sent)|
    ensures n <= |sent| && Delivered(codec, limit, sent, cut, n)
  {
    if sent == [] {
      return 0;
    }
    var frame := |Framed(Payload(codec, sent[0]))|;
    if cut < frame {
      DeliveredNone(codec, limit, sent, cut);
      return 0;
    }
    var m := CutOffReceived(codec, limit, sent[1..], cut - frame);
    DeliveredCons(codec, limit, sent, cut, m);
    return m + 1;
  }

  lemma CutFrame(codec: Codec, limit: int, payload: Bytes, cut: nat)
    requires |payload| < limit <= LIMIT && cut < |Framed(payload)|
    ensures Receive(codec, limit, Framed(payload)[..cut]).0 == NoData
  {
    if cut >= HEADER_SIZE {
      assert Framed(payload)[..cut][..HEADER_SIZE] == Int32Bytes(|payload|);
      Int32RoundTrip(|payload|);
    }
  }

  /** Whatever the chunks the byte stream is cut into, the packets received are the packets sent. */
  lemma StreamRoundTrip(codec: Codec, limit: int, sent: seq<Sent>, chunks: seq<Bytes>)
    requires AllSendable(codec, limit, sent) && limit <= LIMIT && Flat(chunks) == Wire(codec, sent)
    ensures ReceiveAll(codec, limit, Flat(chunks)) == Packets(sent)
  {
    var bytes := Wire(codec, sent);
    assert bytes[..|bytes|] == bytes;
    var n := CutOffReceived(codec, limit, sent, |bytes|);
    if n < |sent| {
      WirePrefix(codec, sent, n + 1);
      assert false;
    }
    assert sent[..n] == sent;
  }

  /** What follows a reliable response's header: kinds 'O' and 'T' and long ones are compressed above 400 bytes. */
  lemma ResponsePayload(codec: Codec, msg: Bytes)
    requires msg != []
    ensures Payload(codec, Responded(msg))
      == if |msg| > 400 && (msg[0] as int == 79 || msg[0] as int == 84 || |msg| > 1000)
         then Characters("ABG:") + codec.compress(msg) else msg
  {
    assert Characters("ABG:") == ABG;
  }

  /** In particular the reliable responses, whichever path each of them takes. */
  lemma ResponsesRoundTrip(codec: Codec, limit: int, msgs: seq<Bytes>, chunks: seq<Bytes>)
    requires [] !in msgs && AllSendable(codec, limit, Responses(msgs)) && limit <= LIMIT
    requires Flat(chunks) == Wire(codec, Responses(msgs))
    ensures ReceiveAll(codec, limit, Flat(chunks)) == msgs
  {
    StreamRoundTrip(codec, limit, Responses(msgs), chunks);
    assert Packets(Responses(msgs)) == msgs;
  }

  lemma {:induction false} WirePrefix(codec: Codec, sent: seq<Sent>, n: nat)
    requires n <= |sent|
    ensures |Wire(codec, sent[..n])| <= |Wire(codec, sent)|
  {
    if n > 0 {
      WirePrefix(codec, sent[1..], n - 1);
      assert sent[..n][1..] == sent[1..][..n - 1];
    }
  }
}
