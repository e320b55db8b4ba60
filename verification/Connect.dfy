/** The rendezvous of `CS2Session.connect`: directory servers, relays and the camera. Sends over a
    set of endpoints have no order, so what a turn sends is told as a set. */
module Connect {
  import opened Bytes
  import opened Cs2Session
  import Cipher
  import Endpoint
  import Sequencing

  const DIRECTORY_PORT := 32100
  const DIRECTORY_RETRY := 1.0
  const LIST_RETRY := 3.0
  const RELAY_RETRY := 1.0
  const PUNCH_RETRY := 1.0
  const PUNCH_RANGE := 3
  const UID_BYTES := 20
  const ADDRESS_BYTES := 16

  // ---- Addresses and packets ----

  /** The second byte of a packet that begins with F1; 256 for any other. */
  function Code(packet: bytes): nat {
    if |packet| >= 2 && packet[0] == 0xF1 then packet[1] else 256
  }

  /** `inet_ntoa` and `inet_aton`: text for four bytes, and four bytes for a valid text. */
  datatype Inet = Inet(ntoa: bytes -> bytes, aton: bytes -> Option<bytes>, zero: bytes)

  function Reverse(b: bytes): bytes
    requires |b| == 4
  {
    [b[3], b[2], b[1], b[0]]
  }

  /** `decode_network_address`. */
  function DecodeAddress(inet: Inet, payload: bytes): Option<Address> {
    if |payload| < ADDRESS_BYTES || payload[0] != 0 || payload[1] != 2 then None
    else
      var port := FromU16(payload[3], payload[2]);
      var host := inet.ntoa(Reverse(payload[4..8]));
      if port == 0 || host == inet.zero then None else Some(Address(host, port))
  }

  /** `encode_network_address`. */
  function EncodeAddress(inet: Inet, host: bytes, port: nat): Option<bytes> {
    if !(0 < port <= 65535) then None
    else
      match inet.aton(host)
      case None => None
      case Some(address) =>
        if |address| != 4 then None
        else Some([0, 2, port % 256, port / 256] + Reverse(address) + [0, 0, 0, 0, 0, 0, 0, 0])
  }

  /** The inverse of the decoder, for every text that stands for four bytes other than zeros. */
  lemma AddressReadBack(inet: Inet, host: bytes, port: nat)
    requires 0 < port <= 65535 && host != inet.zero
    requires inet.aton(host).Some? && |inet.aton(host).value| == 4 && inet.ntoa(inet.aton(host).value) == host
    ensures EncodeAddress(inet, host, port).Some? && |EncodeAddress(inet, host, port).value| == ADDRESS_BYTES
    ensures DecodeAddress(inet, EncodeAddress(inet, host, port).value) == Some(Address(host, port))
  {
    var address := inet.aton(host).value;
    var payload := EncodeAddress(inet, host, port).value;
    assert payload[4..8] == Reverse(address);
    assert Reverse(Reverse(address)) == address;
  }

  /** `_decode_relay_list`: entries that do not decode are left out. */
  function RelayList(inet: Inet, packet: bytes): set<Address> {
    if |packet| < 8 || Code(packet) != 0x69 then {}
    else
      var count: nat := packet[4];
      if count > 32 || |packet| != 8 + count * 16 then {}
      else
        set i: nat | i < count && DecodeAddress(inet, packet[8 + i * 16..24 + i * 16]).Some?
          :: DecodeAddress(inet, packet[8 + i * 16..24 + i * 16]).value
  }

  /** Who connects: the identifier, the directory servers, the relay preference and the encoded
      local address. */
  datatype Setup = Setup(uid: bytes, servers: seq<bytes>, preferRelay: bool, local: bytes) {
    ghost predicate Good() {
      |uid| == UID_BYTES && |local| == ADDRESS_BYTES
    }

    function Directory(): set<Address> {
      set server | server in servers :: Address(server, DIRECTORY_PORT)
    }

    function Lookup(): bytes { [0xF1, 0x20, 0, 36] + uid + local }

    function Punch(): bytes { [0xF1, 0x41, 0, 20] + uid }

    function ListRequest(): bytes { [0xF1, 0x67, 0, 20] + uid }

    function Readiness(): bytes { [0xF1, 0x42, 0, 20] + uid }

    function RelayRequest(local: bytes, token: bytes): bytes { [0xF1, 0x80, 0, 40] + uid + local + token }

    function RelayPunch(token: bytes): bytes { [0xF1, 0x83, 0, 28] + token + uid + [0, 0, 0, 0] }

    /** `_make_relay_request_from_ack`. */
    function RequestFromAck(inet: Inet, relay: Address, packet: bytes): Option<bytes> {
      if |packet| != 12 || Code(packet) != 0x73 then None
      else
        match EncodeAddress(inet, relay.host, FromU16(packet[8], packet[9]))
        case None => None
        case Some(address) => Some(RelayRequest(address, packet[4..8]))
    }

    /** A packet of exactly 24 bytes that carries the identifier of this camera. */
    predicate Names(packet: bytes) {
      |packet| == 24 && packet[4..24] == uid
    }
  }

  /** A packet that carries nothing but its kind. */
  function Bare(code: byte): bytes {
    [0xF1, code, 0, 0]
  }

  const HELLO: byte := 0x00
  const RELAY_HELLO: byte := 0x70
  const PORT_REQUEST: byte := 0x72
  const RELAY_PACKET: byte := 0x03
  const READY: byte := 0x43
  const ALIVE: byte := 0xE0

  // ---- One turn of the loop ----

  datatype Negotiation = Negotiation(endpoints: set<Address>, relays: set<Address>, relayPort: Option<Address>,
                                     request: Option<bytes>, closeTargets: set<Address>, lastDirectory: real,
                                     lastList: real, lastRelay: real, lastPunch: real, helloSent: bool,
                                     peer: Option<Address>)

  const BEGINNING := Negotiation({}, {}, None, None, {}, 0.0, 0.0, 0.0, 0.0, false, None)

  function Each(packet: bytes, targets: set<Address>): set<Datagram> {
    set a | a in targets :: Datagram(packet, a)
  }

  /** The ports within three of an announced one. */
  function Around(endpoints: set<Address>): set<Address> {
    set e, port: nat | e in endpoints && 1 <= port <= 65535 && e.port <= port + PUNCH_RANGE && port <= e.port + PUNCH_RANGE
      :: Address(e.host, port)
  }

  function DirectorySends(s: Setup, n: Negotiation, now: real): set<Datagram> {
    if now - n.lastDirectory < DIRECTORY_RETRY then {}
    else Each(s.Lookup(), s.Directory()) + if n.helloSent then {} else Each(Bare(HELLO), s.Directory())
  }

  function ListSends(s: Setup, n: Negotiation, now: real): set<Datagram> {
    if now - n.lastList < LIST_RETRY then {} else Each(s.ListRequest(), s.Directory())
  }

  function RelaySends(s: Setup, n: Negotiation, now: real): set<Datagram> {
    if n.relays == {} || now - n.lastRelay < RELAY_RETRY then {}
    else
      match (n.relayPort, n.request)
      case (None, _) => Each(Bare(RELAY_HELLO), n.relays)
      case (Some(relay), None) => Each(Bare(PORT_REQUEST), {relay})
      case (Some(_), Some(request)) => Each(request, s.Directory())
  }

  function PunchSends(s: Setup, n: Negotiation, now: real): set<Datagram> {
    if n.endpoints == {} || now - n.lastPunch < PUNCH_RETRY then {} else Each(s.Punch(), Around(n.endpoints))
  }

  function TimedSends(s: Setup, n: Negotiation, now: real): set<Datagram> {
    DirectorySends(s, n, now) + ListSends(s, n, now) + RelaySends(s, n, now) + PunchSends(s, n, now)
  }

  function Timed(n: Negotiation, now: real): Negotiation {
    n.(lastDirectory := if now - n.lastDirectory >= DIRECTORY_RETRY then now else n.lastDirectory,
       helloSent := n.helloSent || now - n.lastDirectory >= DIRECTORY_RETRY,
       lastList := if now - n.lastList >= LIST_RETRY then now else n.lastList,
       lastRelay := if n.relays != {} && now - n.lastRelay >= RELAY_RETRY then now else n.lastRelay,
       lastPunch := if n.endpoints != {} && now - n.lastPunch >= PUNCH_RETRY then now else n.lastPunch)
  }

  /** What a packet does to the negotiation, and what is sent in answer. */
  datatype Answer = Answer(n: Negotiation, sends: set<Datagram>)

  function Noted(n: Negotiation, d: Datagram): Negotiation {
    if Code(d.packet) in {0x41, 0x42, 0x84}
    then n.(closeTargets := n.closeTargets + {d.address}) else n
  }

  function Decoded(inet: Inet, packet: bytes, offset: nat): set<Address> {
    if offset + ADDRESS_BYTES > |packet| then {}
    else
      match DecodeAddress(inet, packet[offset..offset + ADDRESS_BYTES])
      case None => {}
      case Some(address) => {address}
  }

  function OnEndpoint(s: Setup, inet: Inet, n: Negotiation, d: Datagram): Answer {
    if d.address !in s.Directory() then Answer(n, {})
    else
      var found := Decoded(inet, d.packet, 4);
      Answer(n.(endpoints := n.endpoints + found, closeTargets := n.closeTargets + found), Each(s.Punch(), found))
  }

  function OnRelayList(s: Setup, inet: Inet, n: Negotiation, d: Datagram): Answer {
    if d.address !in s.Directory() then Answer(n, {})
    else Answer(n.(relays := n.relays + RelayList(inet, d.packet)), {})
  }

  function OnRelayHello(n: Negotiation, d: Datagram): Answer {
    if d.address !in n.relays || n.relayPort.Some? then Answer(n, {})
    else Answer(n.(relayPort := Some(d.address)), Each(Bare(PORT_REQUEST), {d.address}))
  }

  function OnRelayPort(s: Setup, inet: Inet, n: Negotiation, d: Datagram): Answer {
    if d.address !in n.relays || n.relayPort != Some(d.address) then Answer(n, {})
    else
      match s.RequestFromAck(inet, d.address, d.packet)
      case None => Answer(n, {})
      case Some(request) => Answer(n.(request := Some(request)), Each(request, s.Directory()))
  }

  function OnRendezvous(s: Setup, inet: Inet, n: Negotiation, d: Datagram): Answer {
    if d.address !in s.Directory() || |d.packet| != 24 || Decoded(inet, d.packet, 4) == {} then Answer(n, {})
    else Answer(n, Each(s.RelayPunch(d.packet[20..24]), Decoded(inet, d.packet, 4) + {d.address}))
  }

  function OnRelayTargets(inet: Inet, n: Negotiation, d: Datagram): Answer {
    if |d.packet| != 36 then Answer(n, {})
    else Answer(n, Each(Bare(RELAY_PACKET), Decoded(inet, d.packet, 4) + Decoded(inet, d.packet, 20)))
  }

  function OnPunch(s: Setup, n: Negotiation, d: Datagram): Answer {
    if s.preferRelay || d.address in s.Directory() || !s.Names(d.packet) then Answer(n, {})
    else Answer(n.(peer := Some(d.address)), Each(s.Readiness(), {d.address}) + Each(Bare(ALIVE), {d.address}))
  }

  function OnReadiness(s: Setup, n: Negotiation, d: Datagram): Answer {
    if d.address in s.Directory() || !s.Names(d.packet) then Answer(n, {})
    else Answer(if s.preferRelay then n else n.(peer := Some(d.address)), Each(Bare(READY), {d.address}))
  }

  function OnRelayReady(s: Setup, n: Negotiation, d: Datagram): Answer {
    if d.address in s.Directory() || !s.Names(d.packet) then Answer(n, {})
    else Answer(n.(peer := Some(d.address)), Each(Bare(ALIVE), {d.address}))
  }

  function Handle(s: Setup, inet: Inet, before: Negotiation, d: Datagram): Answer {
    var n, kind := Noted(before, d), Code(d.packet);
    if kind == 0x40 then OnEndpoint(s, inet, n, d)
    else if kind == 0x69 then OnRelayList(s, inet, n, d)
    else if kind == 0x71 then OnRelayHello(n, d)
    else if kind == 0x73 then OnRelayPort(s, inet, n, d)
    else if kind == 0x82 then OnRendezvous(s, inet, n, d)
    else if kind == 0x02 then OnRelayTargets(inet, n, d)
    else if kind == 0x41 then OnPunch(s, n, d)
    else if kind == 0x42 then OnReadiness(s, n, d)
    else if kind == 0x84 then OnRelayReady(s, n, d)
    else Answer(n, {})
  }

  // ---- Runs ----

  /** A run so far: everything sent and everything that arrived. */
  datatype World = World(n: Negotiation, sent: set<Datagram>, got: set<Datagram>)

  function Turn(s: Setup, inet: Inet, w: World, tick: Tick): World {
    var sent := w.sent + TimedSends(s, w.n, tick.now);
    var n := Timed(w.n, tick.now);
    match tick.arrival
    case None => World(n, sent, w.got)
    case Some(d) => World(Handle(s, inet, n, d).n, sent + Handle(s, inet, n, d).sends, w.got + {d})
  }

  /** The loop goes on until a peer is adopted. */
  function Turns(s: Setup, inet: Inet, ticks: seq<Tick>): World {
    if ticks == [] then World(BEGINNING, {}, {})
    else
      var last := |ticks| - 1;
      var w := Turns(s, inet, ticks[..last]);
      if w.n.peer.Some? then w else Turn(s, inet, w, ticks[last])
  }

  // ---- What every turn keeps ----

  /** A relay list that a directory server sent names the relay. */
  ghost predicate Listed(s: Setup, inet: Inet, got: set<Datagram>, relay: Address) {
    exists g :: g in got && g.address in s.Directory() && relay in RelayList(inet, g.packet)
  }

  /** The relay request was made from an answer of the latched relay. */
  ghost predicate FromLatched(s: Setup, inet: Inet, w: World, request: bytes) {
    exists g :: g in w.got && w.n.relayPort == Some(g.address) && s.RequestFromAck(inet, g.address, g.packet) == Some(request)
  }

  ghost predicate Relays(s: Setup, inet: Inet, w: World) {
    && (forall relay | relay in w.n.relays :: Listed(s, inet, w.got, relay))
    && (w.n.relayPort.Some? ==> w.n.relayPort.value in w.n.relays)
    && (w.n.request.Some? ==> FromLatched(s, inet, w, w.n.request.value))
  }

  /** Relay requests go to directory servers only. */
  ghost predicate Requests(s: Setup, inet: Inet, w: World) {
    forall d | d in w.sent && Code(d.packet) == 0x80 ::
      d.address in s.Directory() && FromLatched(s, inet, w, d.packet)
  }

  /** The packet that may make its sender the peer. */
  predicate Adopts(s: Setup, d: Datagram) {
    && d.address !in s.Directory() && s.Names(d.packet)
    && Code(d.packet) in (if s.preferRelay then {0x84} else {0x41, 0x42, 0x84})
  }

  ghost predicate Peers(s: Setup, w: World) {
    && (w.n.peer.Some? ==> exists g :: g in w.got && g.address == w.n.peer.value && Adopts(s, g))
    && (forall g | g in w.got && Code(g.packet) in {0x41, 0x42, 0x84} ::
          g.address in w.n.closeTargets)
    && w.n.endpoints <= w.n.closeTargets
  }

  /** Every send is a well-formed packet. */
  ghost predicate Sound(sends: set<Datagram>) {
    forall d | d in sends :: Cipher.WellFormed(d.packet)
  }

  /** What one answer to `d` may do; every branch is of this kind. */
  ghost predicate Fair(s: Setup, inet: Inet, n: Negotiation, d: Datagram, a: Answer) {
    && Sound(a.sends)
    && (forall e | e in a.sends && Code(e.packet) == 0x80 ::
          && e.address in s.Directory() && a.n.relayPort == Some(d.address)
          && s.RequestFromAck(inet, d.address, d.packet) == Some(e.packet))
    && (a.n.request == n.request
        || (a.n.relayPort == Some(d.address) && s.RequestFromAck(inet, d.address, d.packet) == a.n.request))
    && (a.n.relays == n.relays
        || (d.address in s.Directory() && a.n.relays == n.relays + RelayList(inet, d.packet)))
    && (a.n.relayPort == n.relayPort || (n.relayPort == None && a.n.relayPort == Some(d.address) && d.address in n.relays))
    && (a.n.peer == n.peer || (a.n.peer == Some(d.address) && Adopts(s, d)))
    && n.closeTargets <= a.n.closeTargets && a.n.endpoints <= n.endpoints + a.n.closeTargets
    && (Code(d.packet) in {0x41, 0x42, 0x84} ==> d.address in a.n.closeTargets)
  }

  lemma EachSound(packet: bytes, targets: set<Address>)
    requires Cipher.WellFormed(packet)
    ensures Sound(Each(packet, targets))
    ensures forall d :: d in Each(packet, targets) ==> d.packet == packet && d.address in targets
  {
  }

  lemma SetupPackets(s: Setup, local: bytes, token: bytes)
    requires s.Good() && |local| == ADDRESS_BYTES && |token| == 4
    ensures Cipher.WellFormed(s.Lookup()) && Code(s.Lookup()) == 0x20
    ensures Cipher.WellFormed(s.Punch()) && Code(s.Punch()) == 0x41
    ensures Cipher.WellFormed(s.ListRequest()) && Code(s.ListRequest()) == 0x67
    ensures Cipher.WellFormed(s.Readiness()) && Code(s.Readiness()) == 0x42
    ensures Cipher.WellFormed(s.RelayRequest(local, token)) && Code(s.RelayRequest(local, token)) == 0x80
    ensures Cipher.WellFormed(s.RelayPunch(token)) && Code(s.RelayPunch(token)) == 0x83
  {
  }

  lemma BarePacket(code: byte)
    ensures Cipher.WellFormed(Bare(code)) && Code(Bare(code)) == code
  {
  }

  lemma RequestSound(s: Setup, inet: Inet, relay: Address, packet: bytes)
    requires s.Good() && s.RequestFromAck(inet, relay, packet).Some?
    ensures Cipher.WellFormed(s.RequestFromAck(inet, relay, packet).value)
  {
    var address := EncodeAddress(inet, relay.host, FromU16(packet[8], packet[9])).value;
    SetupPackets(s, address, packet[4..8]);
  }

  lemma EndpointFair(s: Setup, inet: Inet, n: Negotiation, d: Datagram)
    requires s.Good() && Code(d.packet) == 0x40
    ensures Fair(s, inet, n, d, OnEndpoint(s, inet, n, d))
  {
    SetupPackets(s, s.local, [0, 0, 0, 0]);
    EachSound(s.Punch(), Decoded(inet, d.packet, 4));
  }

  lemma RelayPortFair(s: Setup, inet: Inet, n: Negotiation, d: Datagram)
    requires s.Good() && Code(d.packet) == 0x73
    ensures Fair(s, inet, n, d, OnRelayPort(s, inet, n, d))
  {
    match s.RequestFromAck(inet, d.address, d.packet)
    case None =>
    case Some(request) =>
      RequestSound(s, inet, d.address, d.packet);
      EachSound(request, s.Directory());
  }

  lemma RendezvousFair(s: Setup, inet: Inet, n: Negotiation, d: Datagram)
    requires s.Good() && Code(d.packet) == 0x82
    ensures Fair(s, inet, n, d, OnRendezvous(s, inet, n, d))
  {
    if |d.packet| == 24 {
      SetupPackets(s, s.local, d.packet[20..24]);
      EachSound(s.RelayPunch(d.packet[20..24]), Decoded(inet, d.packet, 4) + {d.address});
    }
  }

  lemma PeerFair(s: Setup, inet: Inet, before: Negotiation, d: Datagram)
    requires s.Good() && Code(d.packet) in {0x41, 0x42, 0x84}
    ensures Fair(s, inet, before, d, Handle(s, inet, before, d))
  {
    SetupPackets(s, s.local, [0, 0, 0, 0]);
    BarePacket(ALIVE);
    BarePacket(READY);
    EachSound(s.Readiness(), {d.address});
    EachSound(Bare(ALIVE), {d.address});
    EachSound(Bare(READY), {d.address});
  }

  lemma RelayListFair(s: Setup, inet: Inet, n: Negotiation, d: Datagram)
    requires Code(d.packet) == 0x69
    ensures Fair(s, inet, n, d, OnRelayList(s, inet, n, d))
  {
  }

  lemma RelayHelloFair(s: Setup, inet: Inet, n: Negotiation, d: Datagram)
    requires Code(d.packet) == 0x71
    ensures Fair(s, inet, n, d, OnRelayHello(n, d))
  {
    BarePacket(PORT_REQUEST);
    EachSound(Bare(PORT_REQUEST), {d.address});
  }

  lemma RelayTargetsFair(s: Setup, inet: Inet, n: Negotiation, d: Datagram)
    requires Code(d.packet) == 0x02
    ensures Fair(s, inet, n, d, OnRelayTargets(inet, n, d))
  {
    BarePacket(RELAY_PACKET);
    EachSound(Bare(RELAY_PACKET), Decoded(inet, d.packet, 4) + Decoded(inet, d.packet, 20));
  }

  lemma HandleFair(s: Setup, inet: Inet, n: Negotiation, d: Datagram)
    requires s.Good()
    ensures Fair(s, inet, n, d, Handle(s, inet, n, d))
  {
    if Code(d.packet) == 0x40 {
      EndpointFair(s, inet, n, d);
    } else if Code(d.packet) == 0x73 {
      RelayPortFair(s, inet, n, d);
    } else if Code(d.packet) == 0x82 {
      RendezvousFair(s, inet, n, d);
    } else if Code(d.packet) in {0x41, 0x42, 0x84} {
      PeerFair(s, inet, n, d);
    } else if Code(d.packet) == 0x69 {
      RelayListFair(s, inet, n, d);
    } else if Code(d.packet) == 0x71 {
      RelayHelloFair(s, inet, n, d);
    } else if Code(d.packet) == 0x02 {
      RelayTargetsFair(s, inet, n, d);
    }
  }

  ghost predicate Inv(s: Setup, inet: Inet, w: World) {
    Relays(s, inet, w) && Requests(s, inet, w) && Peers(s, w) && Sound(w.sent)
  }

  lemma LatchedRequest(s: Setup, inet: Inet, w: World)
    requires s.Good() && Relays(s, inet, w) && w.n.request.Some?
    ensures Cipher.WellFormed(w.n.request.value)
  {
    var g :| g in w.got && s.RequestFromAck(inet, g.address, g.packet) == w.n.request;
    RequestSound(s, inet, g.address, g.packet);
  }

  lemma RelaySendsSound(s: Setup, inet: Inet, w: World, now: real)
    requires s.Good() && Relays(s, inet, w)
    ensures Sound(RelaySends(s, w.n, now))
    ensures forall d :: d in RelaySends(s, w.n, now) && Code(d.packet) == 0x80 ==>
              d.address in s.Directory() && w.n.request == Some(d.packet)
  {
    BarePacket(RELAY_HELLO);
    BarePacket(PORT_REQUEST);
    EachSound(Bare(RELAY_HELLO), w.n.relays);
    if w.n.relayPort.Some? {
      EachSound(Bare(PORT_REQUEST), {w.n.relayPort.value});
    }
    if w.n.request.Some? {
      LatchedRequest(s, inet, w);
      EachSound(w.n.request.value, s.Directory());
    }
  }

  lemma OtherSendsSound(s: Setup, n: Negotiation, now: real)
    requires s.Good()
    ensures var sends := DirectorySends(s, n, now) + ListSends(s, n, now) + PunchSends(s, n, now);
            Sound(sends) && forall d :: d in sends ==> Code(d.packet) != 0x80
  {
    SetupPackets(s, s.local, [0, 0, 0, 0]);
    BarePacket(HELLO);
    EachSound(s.Lookup(), s.Directory());
    EachSound(Bare(HELLO), s.Directory());
    EachSound(s.ListRequest(), s.Directory());
    EachSound(s.Punch(), Around(n.endpoints));
  }

  lemma TimedSound(s: Setup, inet: Inet, w: World, now: real)
    requires s.Good() && Relays(s, inet, w)
    ensures Sound(TimedSends(s, w.n, now))
    ensures forall d :: d in TimedSends(s, w.n, now) && Code(d.packet) == 0x80 ==>
              d.address in s.Directory() && w.n.request == Some(d.packet)
  {
    RelaySendsSound(s, inet, w, now);
    OtherSendsSound(s, w.n, now);
    Parts(DirectorySends(s, w.n, now), ListSends(s, w.n, now), RelaySends(s, w.n, now), PunchSends(s, w.n, now));
  }

  lemma Parts(a: set<Datagram>, b: set<Datagram>, c: set<Datagram>, d: set<Datagram>)
    ensures a + b + c + d == a + b + d + c
  {
  }

  function Waited(s: Setup, w: World, now: real): World {
    World(Timed(w.n, now), w.sent + TimedSends(s, w.n, now), w.got)
  }

  lemma WaitedInv(s: Setup, inet: Inet, w: World, now: real)
    requires s.Good() && Inv(s, inet, w)
    ensures Inv(s, inet, Waited(s, w, now))
  {
    TimedSound(s, inet, w, now);
    var v := Waited(s, w, now);
    assert v.n.relayPort == w.n.relayPort && v.n.request == w.n.request && v.n.relays == w.n.relays;
    forall request | FromLatched(s, inet, w, request)
      ensures FromLatched(s, inet, v, request)
    {
    }
  }

  function Answered(s: Setup, inet: Inet, w: World, d: Datagram): World {
    var a := Handle(s, inet, w.n, d);
    World(a.n, w.sent + a.sends, w.got + {d})
  }

  lemma AnsweredRelays(s: Setup, inet: Inet, w: World, d: Datagram, a: Answer, v: World)
    requires Relays(s, inet, w) && Requests(s, inet, w) && Fair(s, inet, w.n, d, a)
    requires v == World(a.n, w.sent + a.sends, w.got + {d})
    ensures Relays(s, inet, v) && Requests(s, inet, v)
  {
    forall relay | relay in v.n.relays
      ensures Listed(s, inet, v.got, relay)
    {
      if relay in w.n.relays {
        var g :| g in w.got && g.address in s.Directory() && relay in RelayList(inet, g.packet);
        assert g in v.got;
      } else {
        assert d in v.got;
      }
    }
    forall request | FromLatched(s, inet, w, request)
      ensures FromLatched(s, inet, v, request)
    {
      var g :| g in w.got && w.n.relayPort == Some(g.address) && s.RequestFromAck(inet, g.address, g.packet) == Some(request);
      assert g in v.got;
    }
    assert d in v.got;
  }

  lemma AnsweredPeers(s: Setup, inet: Inet, w: World, d: Datagram, a: Answer, v: World)
    requires Peers(s, w) && Fair(s, inet, w.n, d, a)
    requires v == World(a.n, w.sent + a.sends, w.got + {d})
    ensures Peers(s, v)
  {
    assert d in v.got;
    if v.n.peer.Some? && v.n.peer == w.n.peer {
      var g :| g in w.got && g.address == w.n.peer.value && Adopts(s, g);
      assert g in v.got;
    }
  }

  lemma AnsweredInv(s: Setup, inet: Inet, w: World, d: Datagram)
    requires s.Good() && Inv(s, inet, w)
    ensures Inv(s, inet, Answered(s, inet, w, d))
  {
    var a := Handle(s, inet, w.n, d);
    HandleFair(s, inet, w.n, d);
    AnsweredRelays(s, inet, w, d, a, Answered(s, inet, w, d));
    AnsweredPeers(s, inet, w, d, a, Answered(s, inet, w, d));
  }

  lemma TurnInv(s: Setup, inet: Inet, w: World, tick: Tick)
    requires s.Good() && Inv(s, inet, w)
    ensures Inv(s, inet, Turn(s, inet, w, tick))
  {
    WaitedInv(s, inet, w, tick.now);
    if tick.arrival.Some? {
      AnsweredInv(s, inet, Waited(s, w, tick.now), tick.arrival.value);
    }
  }

  lemma {:induction false} TurnsInv(s: Setup, inet: Inet, ticks: seq<Tick>)
    requires s.Good()
    ensures Inv(s, inet, Turns(s, inet, ticks))
    decreases |ticks|
  {
    if ticks != [] {
      var last := |ticks| - 1;
      TurnsInv(s, inet, ticks[..last]);
      TurnInv(s, inet, Turns(s, inet, ticks[..last]), ticks[last]);
    }
  }

  // ---- What holds over every run ----

  /** Relay requests go only to directory servers, and each was made from an answer of the latched
      relay, which a directory server listed. Everything sent is well-formed. */
  lemma RelayRequestsAreSound(s: Setup, inet: Inet, ticks: seq<Tick>, d: Datagram)
    requires s.Good() && d in Turns(s, inet, ticks).sent
    ensures Cipher.WellFormed(d.packet)
    ensures Code(d.packet) == 0x80 ==>
              && d.address in s.Directory() && FromLatched(s, inet, Turns(s, inet, ticks), d.packet)
              && Turns(s, inet, ticks).n.relayPort.Some?
              && Listed(s, inet, Turns(s, inet, ticks).got, Turns(s, inet, ticks).n.relayPort.value)
  {
    TurnsInv(s, inet, ticks);
  }

  /** A relay that has been latched stays latched. */
  lemma {:induction false} RelayStays(s: Setup, inet: Inet, ticks: seq<Tick>, more: seq<Tick>)
    requires s.Good() && Turns(s, inet, ticks).n.relayPort.Some?
    ensures Turns(s, inet, ticks + more).n.relayPort == Turns(s, inet, ticks).n.relayPort
    decreases |more|
  {
    hide Turn, Turns;
    if more == [] {
      assert ticks + more == ticks;
    } else {
      var last := |more| - 1;
      var front := ticks + more[..last];
      RelayStays(s, inet, ticks, more[..last]);
      assert ticks + more == front + [more[last]];
      RelayStaysOnce(s, inet, front, more[last]);
    }
  }

  lemma RelayStaysOnce(s: Setup, inet: Inet, ticks: seq<Tick>, tick: Tick)
    requires s.Good() && Turns(s, inet, ticks).n.relayPort.Some?
    ensures Turns(s, inet, ticks + [tick]).n.relayPort == Turns(s, inet, ticks).n.relayPort
  {
    assert (ticks + [tick])[..|ticks|] == ticks;
    TurnKeepsRelay(s, inet, Turns(s, inet, ticks), tick);
  }

  lemma TurnKeepsRelay(s: Setup, inet: Inet, w: World, tick: Tick)
    requires s.Good() && w.n.relayPort.Some?
    ensures Turn(s, inet, w, tick).n.relayPort == w.n.relayPort
  {
    if tick.arrival.Some? {
      HandleFair(s, inet, Timed(w.n, tick.now), tick.arrival.value);
    }
  }

  /** A session that prefers the relay adopts a peer only from a relay-ready packet that carries
      its own identifier; no session adopts a directory server; and whoever is adopted, punched or
      ready is among the endpoints that will be told of the close. */
  lemma PeerIsSound(s: Setup, inet: Inet, ticks: seq<Tick>)
    requires s.Good()
    ensures var w := Turns(s, inet, ticks);
            w.n.peer.Some? ==>
              && w.n.peer.value in w.n.closeTargets && w.n.peer.value !in s.Directory()
              && exists g :: g in w.got && g.address == w.n.peer.value && s.Names(g.packet)
                            && (if s.preferRelay then Code(g.packet) == 0x84 else Code(g.packet) in {0x41, 0x42, 0x84})
    ensures Turns(s, inet, ticks).n.endpoints <= Turns(s, inet, ticks).n.closeTargets
  {
    TurnsInv(s, inet, ticks);
    var w := Turns(s, inet, ticks);
    if w.n.peer.Some? {
      var g :| g in w.got && g.address == w.n.peer.value && Adopts(s, g);
      assert s.Names(g.packet);
    }
  }

  /** The packets of an established session are well-formed too: chunks, acknowledgements, answers
      to control packets and the notice of the close. */
  lemma SessionPacketsSound(channel: nat, sequence: nat, chunk: bytes, uid: bytes, packet: bytes)
    requires channel < Endpoint.CHANNELS && sequence < Sequencing.MODULUS && |chunk| <= Sequencing.CHUNK_BYTES
    requires |uid| == UID_BYTES
    ensures Cipher.WellFormed(Endpoint.DataPacket(channel, sequence, chunk))
    ensures Cipher.WellFormed(Endpoint.AckPacket(channel, sequence))
    ensures ControlReply(uid, packet).Some? ==> Cipher.WellFormed(ControlReply(uid, packet).value)
    ensures Cipher.WellFormed(Bare(0xF0))
  {
  }
}
