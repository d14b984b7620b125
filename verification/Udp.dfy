/**
 Binding a client's UDP endpoint. A client proves itself once with the secret it was given over TCP; from then
 on only datagrams from that endpoint are parsed as its own.
 */
module Udp {
  import opened Clients
  import opened Octets
  import opened Server
  import opened Wrappers

  /** `issued` is the secret handed out when the client connected, if it has been. */
  datatype UdpState = UdpState(address: Endpoint, connected: bool, magic: Bytes, issued: Option<Bytes>)

  datatype Outcome = Ignored | Bound | Parsed(payload: Bytes)

  const COLON: Byte := 58
  const PING: Byte := 80
  const MAGIC_SIZE := 64

  /** The index of the first colon; the datagram's length if there is none. */
  function ColonPos(data: Bytes): (pos: nat)
    ensures pos <= |data|
    ensures pos < |data| ==> data[pos] == COLON
    ensures forall i | 0 <= i < pos :: data[i] != COLON
  {
    if data == [] then 0 else if data[0] == COLON then 0 else 1 + ColonPos(data[1..])
  }

  predicate Dispatched(data: Bytes) {
    data != [] && data != [PING] && ColonPos(data) <= 2
  }

  /** The first byte less one, as an 8-bit number. */
  function AddressedId(data: Bytes): int
    requires data != []
  {
    (data[0] as int + 0xFF) % 0x100
  }

  function Payload(data: Bytes): Bytes {
    if |data| >= 2 then data[2..] else []
  }

  /** What one datagram does to the client it is looked up for. */
  function OnDatagram(id: int, s: UdpState, data: Bytes, from: Endpoint): (r: (UdpState, Outcome))
    ensures r.0 == s || r.1 == Bound
    ensures r.1.Parsed? ==> s.address == from && r.1.payload == Payload(data)
  {
    if !Dispatched(data) || AddressedId(data) != id then (s, Ignored)
    else if s.address == NO_ENDPOINT && !s.connected && s.magic != [] then
      if |data| == MAGIC_SIZE + 2 && data[2..] == s.magic
      then (s.(magic := [], address := from, connected := true), Bound)
      else (s, Ignored)
    else if s.address == from then (s, Parsed(Payload(data)))
    else (s, Ignored)
  }

  /*******************************************************************************
   *  The dispatch loop over all clients
   *******************************************************************************/

  ghost function StateOf(c: Client, issued: Option<Bytes>): UdpState
    reads c`udpAddress, c`isUdpConnected, c`magic
  {
    UdpState(c.udpAddress, c.isUdpConnected, c.magic, issued)
  }

  /** Offers the datagram to one client; `last` says that no other client is tried. */
  method Offer(c: Client, data: Bytes, from: Endpoint) returns (outcome: Outcome, last: bool)
    requires Dispatched(data)
    modifies c`udpAddress, c`isUdpConnected, c`magic
    ensures (StateOf(c, None), outcome) == OnDatagram(c.id, old(StateOf(c, None)), data, from)
    ensures last ==> AddressedId(data) == c.id
  {
    outcome, last := Ignored, false;
    if c.id == AddressedId(data) {
      if c.udpAddress == NO_ENDPOINT && !c.isUdpConnected && c.magic != [] {
        last := true;
        if |data| != MAGIC_SIZE + 2 || data[2..] != c.magic {
          return;
        }
        c.magic := [];
        c.udpAddress := from;
        c.isUdpConnected := true;
        outcome := Bound;
        return;
      }
      if c.udpAddress == from {
        outcome := Parsed(Payload(data));
      } else {
        last := true;
      }
    }
  }

  /** The payload is parsed as these clients' once each, and as nobody else's. */
  ghost predicate ParsedAs(parsed: seq<(Client, Bytes)>, got: set<Client>, payload: Bytes) {
    && (forall i | 0 <= i < |parsed| :: parsed[i].0 in got && parsed[i].1 == payload)
    && (forall i, j | 0 <= i < j < |parsed| :: parsed[i].0 != parsed[j].0)
    && (forall c | c in got :: (c, payload) in parsed)
  }

  lemma ParsedMore(parsed: seq<(Client, Bytes)>, got: set<Client>, payload: Bytes, c: Client)
    requires ParsedAs(parsed, got, payload) && c !in got
    ensures ParsedAs(parsed + [(c, payload)], got + {c}, payload)
  {
    var more := parsed + [(c, payload)];
    assert more[|parsed|] == (c, payload);
    forall d | d in got ensures (d, payload) in more {
      assert (d, payload) in parsed;
    }
  }

  /** The loop over the clients: every client is left as it was or as OnDatagram leaves it. */
  method OfferAll(server: Server, data: Bytes, from: Endpoint)
    returns (parsed: seq<(Client, Bytes)>, ghost got: set<Client>)
    requires Dispatched(data)
    modifies server.clients`udpAddress, server.clients`isUdpConnected, server.clients`magic
    ensures forall c | c in server.clients ::
      || StateOf(c, None) == old(StateOf(c, None))
      || (StateOf(c, None), Bound) == OnDatagram(c.id, old(StateOf(c, None)), data, from)
    ensures DistinctPlayers(server.clients) ==> forall c | c in server.clients && c.id >= 0 ::
      StateOf(c, None) == OnDatagram(c.id, old(StateOf(c, None)), data, from).0
    ensures ParsedAs(parsed, got, Payload(data)) && got <= server.clients
    ensures forall c | c in got :: OnDatagram(c.id, old(StateOf(c, None)), data, from).1.Parsed?
    ensures DistinctPlayers(server.clients) ==> forall c | c in server.clients && c.id >= 0 ::
      c in got <==> OnDatagram(c.id, old(StateOf(c, None)), data, from).1.Parsed?
  {
    parsed, got := [], {};
    var rest := server.clients;
    while rest != {}
      invariant rest <= server.clients && got <= server.clients - rest
      invariant forall c | c in rest :: StateOf(c, None) == old(StateOf(c, None))
      invariant forall c | c in server.clients - rest ::
        StateOf(c, None) == OnDatagram(c.id, old(StateOf(c, None)), data, from).0
      invariant ParsedAs(parsed, got, Payload(data))
      invariant forall c | c in server.clients - rest ::
        c in got <==> OnDatagram(c.id, old(StateOf(c, None)), data, from).1.Parsed?
      decreases rest
    {
      var c :| c in rest;
      rest := rest - {c};
      var outcome, last := Offer(c, data, from);
      if outcome.Parsed? {
        ParsedMore(parsed, got, Payload(data), c);
        parsed, got := parsed + [(c, outcome.payload)], got + {c};
      }
      if last {
        break;
      }
    }
  }

  /** One datagram, said in its bytes. The first one is the client's ID and one more; the second is a colon. */
  predicate IsFor(id: int, data: Bytes) {
    |data| >= 2 && 0 <= id <= 0xFE && data[0] as int == id + 1 && data[1] as int == 58
  }

  predicate Unbound(s: UdpState) {
    s.address == NO_ENDPOINT && !s.connected
  }

  /** What is looked at at all: a colon among the first three bytes, or at most two bytes, but not a lone ping. */
  lemma DispatchedIff(data: Bytes)
    ensures Dispatched(data) <==>
      && data != [] && !(|data| == 1 && data[0] as int == 80)
      && (|data| <= 2 || data[0] as int == 58 || data[1] as int == 58 || data[2] as int == 58)
  {
  }

  lemma ProofBinds(id: int, s: UdpState, data: Bytes, from: Endpoint)
    requires IsFor(id, data) && Unbound(s) && |s.magic| == 64 && data[2..] == s.magic
    ensures OnDatagram(id, s, data, from) == (s.(address := from, connected := true, magic := []), Bound)
  {
  }

  lemma OthersIgnore(id: int, other: int, s: UdpState, data: Bytes, from: Endpoint)
    requires IsFor(id, data) && other != id
    ensures OnDatagram(other, s, data, from) == (s, Ignored)
  {
  }

  lemma BoundParses(id: int, s: UdpState, data: Bytes, from: Endpoint)
    requires IsFor(id, data) && s.connected
    ensures OnDatagram(id, s, data, from) == (s, if s.address == from then Parsed(data[2..]) else Ignored)
  {
  }

  /** One round of the UDP loop: every client is left as it was or as OnDatagram leaves it. */
  method Dispatch(server: Server, data: Bytes, from: Endpoint) returns (parsed: seq<(Client, Bytes)>)
    modifies server.clients`udpAddress, server.clients`isUdpConnected, server.clients`magic
    ensures forall c | c in server.clients ::
      || StateOf(c, None) == old(StateOf(c, None))
      || (StateOf(c, None), Bound) == OnDatagram(c.id, old(StateOf(c, None)), data, from)
    ensures DistinctPlayers(server.clients) ==> forall c | c in server.clients && c.id >= 0 ::
      StateOf(c, None) == OnDatagram(c.id, old(StateOf(c, None)), data, from).0
    ensures forall p | p in parsed :: p.0 in server.clients && p.1 == Payload(data) && old(p.0.udpAddress) == from
    ensures DistinctPlayers(server.clients) ==> forall c | c in server.clients && c.id >= 0 ::
      (c, Payload(data)) in parsed <==> OnDatagram(c.id, old(StateOf(c, None)), data, from).1.Parsed?
    ensures DistinctPlayers(server.clients) ==> forall c | c in server.clients && IsFor(c.id, data) ::
      && (forall other | other in server.clients && other != c :: StateOf(other, None) == old(StateOf(other, None)))
      && (old(c.udpAddress) == NO_ENDPOINT && !old(c.isUdpConnected)
          && |old(c.magic)| == 64 && data[2..] == old(c.magic) ==>
            parsed == [] && c.udpAddress == from && c.isUdpConnected && c.magic == [])
      && (old(c.isUdpConnected) ==>
            && parsed == (if old(c.udpAddress) == from then [(c, data[2..])] else [])
            && StateOf(c, None) == old(StateOf(c, None)))
  {
    parsed := [];
    if Dispatched(data) {
      ghost var got;
      parsed, got := OfferAll(server, data, from);
      assert forall c | c in server.clients :: c in got <==> (c, Payload(data)) in parsed;
    }
    if DistinctPlayers(server.clients) {
      forall c | c in server.clients && IsFor(c.id, data)
        ensures forall other | other in server.clients && other != c ::
          StateOf(other, None) == old(StateOf(other, None))
        ensures old(Unbound(StateOf(c, None))) && |old(c.magic)| == 64 && data[2..] == old(c.magic) ==>
          parsed == [] && StateOf(c, None) == UdpState(from, true, [], None)
        ensures old(c.isUdpConnected) ==>
          && parsed == (if old(c.udpAddress) == from then [(c, data[2..])] else [])
          && StateOf(c, None) == old(StateOf(c, None))
      {
        ghost var was := old(StateOf(c, None));
        forall other | other in server.clients && other != c
          ensures StateOf(other, None) == old(StateOf(other, None))
        {
          OthersIgnore(c.id, other.id, old(StateOf(other, None)), data, from);
        }
        assert forall i | 0 <= i < |parsed| :: parsed[i] in parsed && parsed[i] == (c, Payload(data));
        OneAtMost(parsed, c, Payload(data));
        if Unbound(was) && |was.magic| == 64 && data[2..] == was.magic {
          ProofBinds(c.id, was, data, from);
        }
        if was.connected {
          BoundParses(c.id, was, data, from);
        }
      }
    }
  }

  lemma OneAtMost(parsed: seq<(Client, Bytes)>, c: Client, payload: Bytes)
    requires forall i | 0 <= i < |parsed| :: parsed[i] == (c, payload)
    requires |parsed| > 1 ==> parsed[0].0 != parsed[1].0
    ensures parsed == if (c, payload) in parsed then [(c, payload)] else []
  {
    if parsed != [] {
      assert parsed[0] in parsed;
    }
  }

  /*******************************************************************************
   *  One client over a whole run
   *******************************************************************************/

  datatype Event = IssueMagic(secret: Bytes) | Datagram(data: Bytes, from: Endpoint)

  const NEW_UDP := UdpState(NO_ENDPOINT, false, [], None)

  /** The secret is issued once, when the client connects; received datagrams have a sender. */
  predicate Can(s: UdpState, e: Event) {
    match e
    case IssueMagic(secret) => s.issued.None? && |secret| == MAGIC_SIZE
    case Datagram(_, from) => from != NO_ENDPOINT
  }

  function Next(id: int, s: UdpState, e: Event): UdpState {
    match e
    case IssueMagic(secret) => s.(magic := secret, issued := Some(secret))
    case Datagram(data, from) => OnDatagram(id, s, data, from).0
  }

  ghost predicate Run(id: int, states: seq<UdpState>, events: seq<Event>) {
    && |states| == |events| + 1
    && states[0] == NEW_UDP
    && forall i | 0 <= i < |events| :: Can(states[i], events[i]) && states[i + 1] == Next(id, states[i], events[i])
  }

  ghost predicate Inv(s: UdpState) {
    && (s.connected <==> s.address != NO_ENDPOINT)
    && (s.connected ==> s.magic == [] && s.issued.Some?)
    && (!s.connected ==> s.magic == if s.issued.Some? then s.issued.value else [])
    && (s.issued.Some? ==> |s.issued.value| == MAGIC_SIZE)
  }

  /** The datagram that names the client and carries exactly the secret it was issued. */
  predicate Proves(id: int, s: UdpState, e: Event) {
    && e.Datagram? && |e.data| == 66 && (e.data[0] as int == 58 || e.data[1] as int == 58 || e.data[2] as int == 58)
    && 0 <= id <= 0xFF && e.data[0] as int == (id + 1) % 0x100
    && s.issued == Some(e.data[2..])
  }

  lemma {:induction false} RunInv(id: int, states: seq<UdpState>, events: seq<Event>, n: nat)
    requires Run(id, states, events) && n < |states|
    ensures Inv(states[n])
  {
    if n > 0 {
      RunInv(id, states, events, n - 1);
    }
  }

  /** The endpoint is set by a proving datagram and by nothing else, and by the first one there is. */
  lemma BindsExactlyOnProof(id: int, states: seq<UdpState>, events: seq<Event>, n: nat)
    requires Run(id, states, events) && n < |events|
    ensures states[n + 1].address != states[n].address
       <==> states[n].address == NO_ENDPOINT && Proves(id, states[n], events[n])
    ensures states[n + 1].address != states[n].address ==> states[n + 1].address == events[n].from
  {
    RunInv(id, states, events, n);
  }

  /** Once bound, the endpoint stays, and the secret can never be used again. */
  lemma {:induction false} BoundForever(id: int, states: seq<UdpState>, events: seq<Event>, m: nat, n: nat)
    requires Run(id, states, events) && m <= n < |states|
    requires states[m].address != NO_ENDPOINT
    ensures states[n].address == states[m].address && states[n].magic == []
  {
    RunInv(id, states, events, n);
    if m < n {
      BoundForever(id, states, events, m, n - 1);
      BindsExactlyOnProof(id, states, events, n - 1);
    }
  }

  /** A payload is parsed as the client's only if it comes from the endpoint that proved itself earlier. */
  lemma ParsedOnlyFromProver(id: int, states: seq<UdpState>, events: seq<Event>, n: nat)
    returns (m: nat)
    requires Run(id, states, events) && n < |events| && events[n].Datagram?
    requires OnDatagram(id, states[n], events[n].data, events[n].from).1.Parsed?
    ensures m < n && Proves(id, states[m], events[m]) && events[m].from == events[n].from
  {
    m := ProverOf(id, states, events, n);
  }

  lemma {:induction false} ProverOf(id: int, states: seq<UdpState>, events: seq<Event>, n: nat) returns (m: nat)
    requires Run(id, states, events) && n < |states| && states[n].address != NO_ENDPOINT
    ensures m < n && Proves(id, states[m], events[m]) && events[m].from == states[n].address
  {
    BindsExactlyOnProof(id, states, events, n - 1);
    if states[n - 1].address == states[n].address {
      m := ProverOf(id, states, events, n - 1);
    } else {
      m := n - 1;
    }
  }
}
