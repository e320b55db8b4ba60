/** The other half of `Connect`: not only what a negotiation may do, but what it must. Packets and
    conditions are written out byte by byte. */
module Adoption {
  import opened Bytes
  import opened Cs2Session
  import opened Connect

  /** The address is that of a directory server. */
  ghost predicate IsDirectory(s: Setup, a: Address) {
    exists server | server in s.servers :: a == Address(server, 32100)
  }

  lemma DirectoryIs(s: Setup, a: Address)
    ensures a in s.Directory() <==> IsDirectory(s, a)
  {
  }

  ghost predicate IsKind(packet: bytes, kind: byte) {
    |packet| >= 2 && packet[0] == 0xF1 && packet[1] == kind
  }

  lemma KindIs(packet: bytes, kind: byte)
    ensures Code(packet) == kind <==> IsKind(packet, kind)
  {
  }

  /** Twenty-four bytes from outside the directory that carry the own identifier: a relay that is
      ready, or, unless the relay is preferred, the camera's punch or readiness. */
  ghost predicate Offers(s: Setup, d: Datagram) {
    && !IsDirectory(s, d.address) && |d.packet| == 24 && d.packet[4..24] == s.uid
    && (IsKind(d.packet, 0x84) || (!s.preferRelay && (IsKind(d.packet, 0x41) || IsKind(d.packet, 0x42))))
  }

  /** One packet: the peer is adopted if and only if the packet offers one. */
  lemma HandleAdopts(s: Setup, inet: Inet, n: Negotiation, d: Datagram)
    ensures Handle(s, inet, n, d).n.peer == if Offers(s, d) then Some(d.address) else n.peer
  {
    DirectoryIs(s, d.address);
    KindIs(d.packet, 0x84);
    KindIs(d.packet, 0x41);
    KindIs(d.packet, 0x42);
  }

  ghost predicate OffersAt(s: Setup, ticks: seq<Tick>, k: nat)
    requires k < |ticks|
  {
    ticks[k].arrival.Some? && Offers(s, ticks[k].arrival.value)
  }

  ghost predicate NoOffer(s: Setup, ticks: seq<Tick>) {
    forall k: nat | k < |ticks| :: !OffersAt(s, ticks, k)
  }

  lemma OneTurn(s: Setup, inet: Inet, ticks: seq<Tick>, k: nat)
    requires k < |ticks| && Turns(s, inet, ticks[..k]).n.peer.None?
    ensures Turns(s, inet, ticks[..k + 1]) == Turn(s, inet, Turns(s, inet, ticks[..k]), ticks[k])
  {
    assert ticks[..k + 1][..k] == ticks[..k];
  }

  lemma TurnAdopts(s: Setup, inet: Inet, w: World, tick: Tick)
    ensures Turn(s, inet, w, tick).n.peer
         == if tick.arrival.Some? && Offers(s, tick.arrival.value) then Some(tick.arrival.value.address) else w.n.peer
  {
    hide Handle, Offers, TimedSends;
    if tick.arrival.Some? {
      HandleAdopts(s, inet, Timed(w.n, tick.now), tick.arrival.value);
    }
  }

  lemma {:induction false} NobodyYet(s: Setup, inet: Inet, ticks: seq<Tick>, k: nat)
    requires k <= |ticks| && forall j: nat | j < k :: !OffersAt(s, ticks, j)
    ensures Turns(s, inet, ticks[..k]).n.peer.None?
  {
    if k > 0 {
      hide Turn, Offers;
      NobodyYet(s, inet, ticks, k - 1);
      OneTurn(s, inet, ticks, k - 1);
      assert !OffersAt(s, ticks, k - 1);
      TurnAdopts(s, inet, Turns(s, inet, ticks[..k - 1]), ticks[k - 1]);
    }
  }

  lemma {:induction false} PeerRests(s: Setup, inet: Inet, ticks: seq<Tick>, k: nat, m: nat)
    requires k <= m <= |ticks| && Turns(s, inet, ticks[..k]).n.peer.Some?
    ensures Turns(s, inet, ticks[..m]) == Turns(s, inet, ticks[..k])
    decreases m
  {
    hide Turn;
    if k < m {
      PeerRests(s, inet, ticks, k, m - 1);
      assert ticks[..m][..m - 1] == ticks[..m - 1];
    }
  }

  /** In every run the peer is the sender of the first packet that offers one, and there is none while
      no such packet has come. */
  lemma PeerIsFirstOffer(s: Setup, inet: Inet, ticks: seq<Tick>)
    ensures Turns(s, inet, ticks).n.peer == None <==> NoOffer(s, ticks)
    ensures forall k: nat | k < |ticks| && OffersAt(s, ticks, k) && (forall j: nat | j < k :: !OffersAt(s, ticks, j)) ::
              Turns(s, inet, ticks).n.peer == Some(ticks[k].arrival.value.address)
  {
    hide Turn, Turns, Offers;
    assert ticks[..|ticks|] == ticks;
    forall k: nat | k < |ticks| && OffersAt(s, ticks, k) && (forall j: nat | j < k :: !OffersAt(s, ticks, j))
      ensures Turns(s, inet, ticks).n.peer == Some(ticks[k].arrival.value.address)
    {
      NobodyYet(s, inet, ticks, k);
      OneTurn(s, inet, ticks, k);
      TurnAdopts(s, inet, Turns(s, inet, ticks[..k]), ticks[k]);
      PeerRests(s, inet, ticks, k + 1, |ticks|);
    }
    if NoOffer(s, ticks) {
      NobodyYet(s, inet, ticks, |ticks|);
    } else {
      var k := FirstOffer(s, ticks);
      assert Turns(s, inet, ticks).n.peer == Some(ticks[k].arrival.value.address);
    }
  }

  lemma {:induction false} FirstOffer(s: Setup, ticks: seq<Tick>) returns (k: nat)
    requires !NoOffer(s, ticks)
    ensures k < |ticks| && OffersAt(s, ticks, k) && forall j: nat | j < k :: !OffersAt(s, ticks, j)
  {
    var m: nat :| m < |ticks| && OffersAt(s, ticks, m);
    k := 0;
    while !OffersAt(s, ticks, k)
      invariant k <= m && forall j: nat | j < k :: !OffersAt(s, ticks, j)
      decreases m - k
    {
      k := k + 1;
    }
  }

  // ---- Addresses in packets ----

  /** The 16 bytes stand for an address: family 2, the port with its low byte first, the host with
      its last byte first. */
  ghost predicate Reads(inet: Inet, field: bytes, a: Address) {
    && |field| >= 16 && field[0] == 0 && field[1] == 2
    && a.port == field[2] as nat + 256 * (field[3] as nat) && a.port != 0
    && a.host == inet.ntoa([field[7], field[6], field[5], field[4]]) && a.host != inet.zero
  }

  ghost predicate ReadsAt(inet: Inet, packet: bytes, offset: nat, a: Address) {
    offset + 16 <= |packet| && Reads(inet, packet[offset..offset + 16], a)
  }

  /** A field is decoded to an address if and only if it stands for one. */
  lemma DecodeIff(inet: Inet, field: bytes, a: Address)
    ensures DecodeAddress(inet, field) == Some(a) <==> Reads(inet, field, a)
  {
    if |field| >= 16 {
      assert Reverse(field[4..8]) == [field[7], field[6], field[5], field[4]];
    }
  }

  lemma DecodedIs(inet: Inet, packet: bytes, offset: nat, a: Address)
    ensures a in Decoded(inet, packet, offset) <==> ReadsAt(inet, packet, offset, a)
  {
    hide DecodeAddress, Reads;
    if offset + 16 <= |packet| {
      DecodeIff(inet, packet[offset..offset + 16], a);
    }
  }

  /** A relay list has at most 32 entries, and its length is that of its entries. */
  ghost predicate Lists(inet: Inet, packet: bytes, a: Address) {
    && IsKind(packet, 0x69) && |packet| >= 8 && packet[4] <= 32 && |packet| == 8 + 16 * (packet[4] as nat)
    && exists i: nat :: i < packet[4] && ReadsAt(inet, packet, 8 + i * 16, a)
  }

  lemma RelayListIs(inet: Inet, packet: bytes, a: Address)
    ensures a in RelayList(inet, packet) <==> Lists(inet, packet, a)
  {
    hide DecodeAddress, Reads;
    if IsKind(packet, 0x69) && |packet| >= 8 && packet[4] <= 32 && |packet| == 8 + 16 * (packet[4] as nat) {
      forall i: nat | i < packet[4]
        ensures DecodeAddress(inet, packet[8 + i * 16..24 + i * 16]) == Some(a) <==> ReadsAt(inet, packet, 8 + i * 16, a)
      {
        DecodeIff(inet, packet[8 + i * 16..24 + i * 16], a);
      }
      if a in RelayList(inet, packet) {
        var i: nat :| i < packet[4] && DecodeAddress(inet, packet[8 + i * 16..24 + i * 16]) == Some(a);
        assert ReadsAt(inet, packet, 8 + i * 16, a);
      }
      if i: nat :| i < packet[4] && ReadsAt(inet, packet, 8 + i * 16, a) {
        assert DecodeAddress(inet, packet[8 + i * 16..24 + i * 16]) == Some(a);
      }
    }
  }

  /** The relay request that an F1 73 of twelve bytes asks for: the relay's host with the port it
      gives, behind the own identifier and in front of its token. */
  ghost predicate Asks(s: Setup, inet: Inet, d: Datagram, request: bytes) {
    && |d.packet| == 12 && IsKind(d.packet, 0x73)
    && (d.packet[8] != 0 || d.packet[9] != 0)
    && inet.aton(d.address.host).Some? && |inet.aton(d.address.host).value| == 4
    && var host := inet.aton(d.address.host).value;
       request == [0xF1, 0x80, 0, 40] + s.uid
                + ([0, 2, d.packet[9], d.packet[8]] + [host[3], host[2], host[1], host[0]] + [0, 0, 0, 0, 0, 0, 0, 0])
                + d.packet[4..8]
  }

  lemma RequestIs(s: Setup, inet: Inet, d: Datagram, request: bytes)
    ensures s.RequestFromAck(inet, d.address, d.packet) == Some(request) <==> Asks(s, inet, d, request)
  {
    if |d.packet| == 12 {
      var port := FromU16(d.packet[8], d.packet[9]);
      assert port % 256 == d.packet[9] && port / 256 == d.packet[8];
    }
  }

  // ---- What one packet changes ----

  /** A directory server names an endpoint of the camera. */
  ghost predicate Names(s: Setup, inet: Inet, d: Datagram, a: Address) {
    IsKind(d.packet, 0x40) && IsDirectory(s, d.address) && ReadsAt(inet, d.packet, 4, a)
  }

  /** The latched relay answers with a port. */
  ghost predicate FromRelay(n: Negotiation, d: Datagram) {
    IsKind(d.packet, 0x73) && n.relayPort == Some(d.address) && d.address in n.relays
  }

  /** Everything that one packet changes, exactly. */
  lemma HandleChanges(s: Setup, inet: Inet, n: Negotiation, d: Datagram, a: Address)
    ensures var m := Handle(s, inet, n, d).n;
            && (a in m.endpoints <==> a in n.endpoints || Names(s, inet, d, a))
            && (a in m.relays <==> a in n.relays || (IsDirectory(s, d.address) && Lists(inet, d.packet, a)))
            && (a in m.closeTargets <==>
                  || a in n.closeTargets || Names(s, inet, d, a)
                  || (a == d.address && (IsKind(d.packet, 0x41) || IsKind(d.packet, 0x42) || IsKind(d.packet, 0x84))))
            && m.relayPort == (if n.relayPort == None && IsKind(d.packet, 0x71) && d.address in n.relays
                               then Some(d.address) else n.relayPort)
  {
    hide RelayList, Decoded, Lists, ReadsAt, IsDirectory;
    DirectoryIs(s, d.address);
    DecodedIs(inet, d.packet, 4, a);
    RelayListIs(inet, d.packet, a);
    ListsKind(inet, d.packet, a);
  }

  lemma ListsKind(inet: Inet, packet: bytes, a: Address)
    ensures Lists(inet, packet, a) ==> Code(packet) == 0x69
  {
  }

  lemma HandleRequest(s: Setup, inet: Inet, n: Negotiation, d: Datagram, request: bytes)
    ensures var m := Handle(s, inet, n, d).n;
            && (FromRelay(n, d) && Asks(s, inet, d, request) ==> m.request == Some(request))
            && (m.request == Some(request) ==> n.request == Some(request) || (FromRelay(n, d) && Asks(s, inet, d, request)))
            && (m.request == None ==> n.request == None)
  {
    hide RelayList, Decoded, Asks;
    RequestIs(s, inet, d, request);
    RequestKind(s, inet, d, request);
  }

  lemma RequestKind(s: Setup, inet: Inet, d: Datagram, request: bytes)
    ensures Asks(s, inet, d, request) ==> Code(d.packet) == 0x73
  {
  }

  // ---- What is sent ----

  /** The answers to one packet. */
  ghost predicate AnswersWith(s: Setup, inet: Inet, n: Negotiation, d: Datagram, e: Datagram) {
    var named := |d.packet| == 24 && d.packet[4..24] == s.uid && !IsDirectory(s, d.address);
    || (Names(s, inet, d, e.address) && e.packet == [0xF1, 0x41, 0, 20] + s.uid)
    || (IsKind(d.packet, 0x71) && n.relayPort == None && d.address in n.relays && e == Datagram([0xF1, 0x72, 0, 0], d.address))
    || (FromRelay(n, d) && Asks(s, inet, d, e.packet) && IsDirectory(s, e.address))
    || (IsKind(d.packet, 0x82) && IsDirectory(s, d.address) && |d.packet| == 24
        && (exists a :: ReadsAt(inet, d.packet, 4, a)) && (e.address == d.address || ReadsAt(inet, d.packet, 4, e.address))
        && e.packet == [0xF1, 0x83, 0, 28] + d.packet[20..24] + s.uid + [0, 0, 0, 0])
    || (IsKind(d.packet, 0x02) && |d.packet| == 36 && e.packet == [0xF1, 0x03, 0, 0]
        && (ReadsAt(inet, d.packet, 4, e.address) || ReadsAt(inet, d.packet, 20, e.address)))
    || (IsKind(d.packet, 0x41) && !s.preferRelay && named && e.address == d.address
        && (e.packet == [0xF1, 0x42, 0, 20] + s.uid || e.packet == [0xF1, 0xE0, 0, 0]))
    || (IsKind(d.packet, 0x42) && named && e == Datagram([0xF1, 0x43, 0, 0], d.address))
    || (IsKind(d.packet, 0x84) && named && e == Datagram([0xF1, 0xE0, 0, 0], d.address))
  }

  lemma EachIs(packet: bytes, targets: set<Address>, e: Datagram)
    ensures e in Each(packet, targets) <==> e.packet == packet && e.address in targets
  {
    if e.packet == packet {
      assert e == Datagram(packet, e.address);
    }
  }

  lemma EndpointSends(s: Setup, inet: Inet, n: Negotiation, d: Datagram, e: Datagram)
    requires IsKind(d.packet, 0x40)
    ensures e in Handle(s, inet, n, d).sends <==> AnswersWith(s, inet, n, d, e)
  {
    DirectoryIs(s, d.address);
    DecodedIs(inet, d.packet, 4, e.address);
    EachIs(s.Punch(), Decoded(inet, d.packet, 4), e);
  }

  lemma RelayHelloSends(s: Setup, inet: Inet, n: Negotiation, d: Datagram, e: Datagram)
    requires IsKind(d.packet, 0x71)
    ensures e in Handle(s, inet, n, d).sends <==> AnswersWith(s, inet, n, d, e)
  {
    EachIs(Bare(PORT_REQUEST), {d.address}, e);
  }

  lemma RelayPortSends(s: Setup, inet: Inet, n: Negotiation, d: Datagram, e: Datagram)
    requires IsKind(d.packet, 0x73)
    ensures e in Handle(s, inet, n, d).sends <==> AnswersWith(s, inet, n, d, e)
  {
    DirectoryIs(s, e.address);
    RequestIs(s, inet, d, e.packet);
    match s.RequestFromAck(inet, d.address, d.packet)
    case None =>
    case Some(request) => EachIs(request, s.Directory(), e);
  }

  lemma RendezvousSends(s: Setup, inet: Inet, n: Negotiation, d: Datagram, e: Datagram)
    requires IsKind(d.packet, 0x82)
    ensures e in Handle(s, inet, n, d).sends <==> AnswersWith(s, inet, n, d, e)
  {
    DirectoryIs(s, d.address);
    DecodedIs(inet, d.packet, 4, e.address);
    if |d.packet| == 24 {
      EachIs(s.RelayPunch(d.packet[20..24]), Decoded(inet, d.packet, 4) + {d.address}, e);
      SomeDecoded(inet, d.packet, 4);
    }
  }

  lemma SomeDecoded(inet: Inet, packet: bytes, offset: nat)
    ensures Decoded(inet, packet, offset) != {} <==> exists a :: ReadsAt(inet, packet, offset, a)
  {
    if a :| ReadsAt(inet, packet, offset, a) {
      DecodedIs(inet, packet, offset, a);
    }
    if Decoded(inet, packet, offset) != {} {
      var a :| a in Decoded(inet, packet, offset);
      DecodedIs(inet, packet, offset, a);
    }
  }

  lemma RelayTargetsSends(s: Setup, inet: Inet, n: Negotiation, d: Datagram, e: Datagram)
    requires IsKind(d.packet, 0x02)
    ensures e in Handle(s, inet, n, d).sends <==> AnswersWith(s, inet, n, d, e)
  {
    DecodedIs(inet, d.packet, 4, e.address);
    DecodedIs(inet, d.packet, 20, e.address);
    EachIs(Bare(RELAY_PACKET), Decoded(inet, d.packet, 4) + Decoded(inet, d.packet, 20), e);
  }

  lemma PeerSends(s: Setup, inet: Inet, n: Negotiation, d: Datagram, e: Datagram)
    requires IsKind(d.packet, 0x41) || IsKind(d.packet, 0x42) || IsKind(d.packet, 0x84)
    ensures e in Handle(s, inet, n, d).sends <==> AnswersWith(s, inet, n, d, e)
  {
    DirectoryIs(s, d.address);
    EachIs(s.Readiness(), {d.address}, e);
    EachIs(Bare(ALIVE), {d.address}, e);
    EachIs(Bare(READY), {d.address}, e);
  }

  /** What is sent in answer to a packet is exactly that. */
  lemma HandleSends(s: Setup, inet: Inet, n: Negotiation, d: Datagram, e: Datagram)
    ensures e in Handle(s, inet, n, d).sends <==> AnswersWith(s, inet, n, d, e)
  {
    hide OnEndpoint, OnRelayHello, OnRelayPort, OnRendezvous, OnRelayTargets, OnPunch, OnReadiness, OnRelayReady;
    if IsKind(d.packet, 0x40) {
      EndpointSends(s, inet, n, d, e);
    } else if IsKind(d.packet, 0x71) {
      RelayHelloSends(s, inet, n, d, e);
    } else if IsKind(d.packet, 0x73) {
      RelayPortSends(s, inet, n, d, e);
    } else if IsKind(d.packet, 0x82) {
      RendezvousSends(s, inet, n, d, e);
    } else if IsKind(d.packet, 0x02) {
      RelayTargetsSends(s, inet, n, d, e);
    } else if IsKind(d.packet, 0x41) || IsKind(d.packet, 0x42) || IsKind(d.packet, 0x84) {
      PeerSends(s, inet, n, d, e);
    }
  }

  /** What a turn sends of its own accord: the greeting once and the lookup every second, the list
      request every three seconds, to every directory server; and every second, once relays are
      listed, what the relays are to be asked next, and, once endpoints are known, a punch to every
      port within three of theirs. */
  ghost predicate SendsTimed(s: Setup, n: Negotiation, now: real, e: Datagram) {
    || (now - n.lastDirectory >= 1.0 && IsDirectory(s, e.address)
        && (e.packet == [0xF1, 0x20, 0, 36] + s.uid + s.local || (!n.helloSent && e.packet == [0xF1, 0, 0, 0])))
    || (now - n.lastList >= 3.0 && IsDirectory(s, e.address) && e.packet == [0xF1, 0x67, 0, 20] + s.uid)
    || (n.relays != {} && now - n.lastRelay >= 1.0
        && (if n.relayPort.None? then e.address in n.relays && e.packet == [0xF1, 0x70, 0, 0]
            else if n.request.None? then e == Datagram([0xF1, 0x72, 0, 0], n.relayPort.value)
            else IsDirectory(s, e.address) && e.packet == n.request.value))
    || (now - n.lastPunch >= 1.0 && e.packet == [0xF1, 0x41, 0, 20] + s.uid && 1 <= e.address.port <= 65535
        && exists a :: a in n.endpoints && a.host == e.address.host && a.port - 3 <= e.address.port <= a.port + 3)
  }

  lemma TimedSendsAre(s: Setup, n: Negotiation, now: real, e: Datagram)
    ensures e in TimedSends(s, n, now) <==> SendsTimed(s, n, now, e)
  {
    DirectoryIs(s, e.address);
    EachIs(s.Lookup(), s.Directory(), e);
    EachIs(Bare(HELLO), s.Directory(), e);
    EachIs(s.ListRequest(), s.Directory(), e);
    EachIs(s.Punch(), Around(n.endpoints), e);
    AroundIs(n.endpoints, e.address);
    EachIs(Bare(RELAY_HELLO), n.relays, e);
    if n.relayPort.Some? {
      EachIs(Bare(PORT_REQUEST), {n.relayPort.value}, e);
    }
    if n.request.Some? {
      EachIs(n.request.value, s.Directory(), e);
    }
  }

  lemma AroundIs(endpoints: set<Address>, x: Address)
    ensures x in Around(endpoints) <==>
              1 <= x.port <= 65535 && exists a :: a in endpoints && a.host == x.host && a.port - 3 <= x.port <= a.port + 3
  {
    if 1 <= x.port <= 65535 {
      if a :| a in endpoints && a.host == x.host && a.port - 3 <= x.port <= a.port + 3 {
        assert x == Address(a.host, x.port);
      }
    }
  }

  /** After a turn none of the intervals is over: whatever was due has been sent. */
  lemma NothingDue(s: Setup, inet: Inet, w: World, tick: Tick)
    ensures var n := Turn(s, inet, w, tick).n;
            && tick.now - n.lastDirectory < 1.0 && tick.now - n.lastList < 3.0
            && (w.n.relays != {} ==> tick.now - n.lastRelay < 1.0)
            && (w.n.endpoints != {} ==> tick.now - n.lastPunch < 1.0)
            && (n.helloSent <==> w.n.helloSent || tick.now - w.n.lastDirectory >= 1.0)
  {
    hide Handle, TimedSends;
    if tick.arrival.Some? {
      HandleKeepsClocks(s, inet, Timed(w.n, tick.now), tick.arrival.value);
    }
  }

  lemma HandleKeepsClocks(s: Setup, inet: Inet, n: Negotiation, d: Datagram)
    ensures var m := Handle(s, inet, n, d).n;
            && m.lastDirectory == n.lastDirectory && m.lastList == n.lastList && m.lastRelay == n.lastRelay
            && m.lastPunch == n.lastPunch && m.helloSent == n.helloSent
  {
    hide Decoded, RelayList;
  }

  // ---- What is known and sent after any run ----

  /** Turn `k` is taken: no earlier packet has offered a peer. */
  ghost predicate Taken(s: Setup, ticks: seq<Tick>, k: nat) {
    k < |ticks| && forall j: nat | j < k :: !OffersAt(s, ticks, j)
  }

  /** The packet that turn `k` looks at. */
  ghost predicate Seen(s: Setup, ticks: seq<Tick>, k: nat) {
    Taken(s, ticks, k) && ticks[k].arrival.Some?
  }

  ghost function At(s: Setup, inet: Inet, ticks: seq<Tick>, k: nat): Negotiation
    requires k <= |ticks|
  {
    Turns(s, inet, ticks[..k]).n
  }

  /** One more turn: it is taken, or a peer was found before and nothing changes. */
  lemma NextTurn(s: Setup, inet: Inet, ticks: seq<Tick>, k: nat)
    requires k < |ticks|
    ensures Turns(s, inet, ticks[..k + 1])
         == if Taken(s, ticks, k) then Turn(s, inet, Turns(s, inet, ticks[..k]), ticks[k]) else Turns(s, inet, ticks[..k])
  {
    hide Turn, Turns, Offers;
    if Taken(s, ticks, k) {
      NobodyYet(s, inet, ticks, k);
      OneTurn(s, inet, ticks, k);
    } else {
      PeerIsFirstOffer(s, inet, ticks[..k]);
      var j: nat :| j < k && OffersAt(s, ticks, j);
      assert OffersAt(s, ticks[..k], j);
      PeerRests(s, inet, ticks, k, k + 1);
    }
  }

  /** Who has been named, listed or met among the first `m` turns. */
  ghost predicate NamedBy(s: Setup, inet: Inet, ticks: seq<Tick>, m: nat, a: Address) {
    exists k: nat :: k < m && Seen(s, ticks, k) && Names(s, inet, ticks[k].arrival.value, a)
  }

  ghost predicate ListsRelay(s: Setup, inet: Inet, d: Datagram, a: Address) {
    IsDirectory(s, d.address) && Lists(inet, d.packet, a)
  }

  ghost predicate ListedBy(s: Setup, inet: Inet, ticks: seq<Tick>, m: nat, a: Address) {
    exists k: nat :: k < m && Seen(s, ticks, k) && ListsRelay(s, inet, ticks[k].arrival.value, a)
  }

  /** A punch, a readiness or a ready relay. */
  ghost predicate Greets(d: Datagram) {
    IsKind(d.packet, 0x41) || IsKind(d.packet, 0x42) || IsKind(d.packet, 0x84)
  }

  ghost predicate MetBy(s: Setup, ticks: seq<Tick>, m: nat, a: Address) {
    exists k: nat :: k < m && Seen(s, ticks, k) && ticks[k].arrival.value.address == a && Greets(ticks[k].arrival.value)
  }

  lemma TurnChanges(s: Setup, inet: Inet, w: World, tick: Tick, a: Address)
    ensures var m, arrived := Turn(s, inet, w, tick).n, tick.arrival.Some?;
            && (a in m.endpoints <==> a in w.n.endpoints || (arrived && Names(s, inet, tick.arrival.value, a)))
            && (a in m.relays <==> a in w.n.relays || (arrived && ListsRelay(s, inet, tick.arrival.value, a)))
            && (a in m.closeTargets <==>
                  || a in w.n.closeTargets || (arrived && Names(s, inet, tick.arrival.value, a))
                  || (arrived && tick.arrival.value.address == a && Greets(tick.arrival.value)))
            && m.relayPort == (if w.n.relayPort == None && arrived && IsKind(tick.arrival.value.packet, 0x71)
                                  && tick.arrival.value.address in w.n.relays
                               then Some(tick.arrival.value.address) else w.n.relayPort)
  {
    hide Handle, TimedSends, Names, Lists, IsDirectory;
    if tick.arrival.Some? {
      HandleChanges(s, inet, Timed(w.n, tick.now), tick.arrival.value, a);
    }
  }

  /** In every run the endpoints are exactly those that directory servers named, the relays exactly
      those that directory servers listed, and the close targets the endpoints and whoever sent a
      punch, a readiness or a relay's readiness. */
  lemma {:induction false} KnownAre(s: Setup, inet: Inet, ticks: seq<Tick>, m: nat, a: Address)
    requires m <= |ticks|
    ensures a in At(s, inet, ticks, m).endpoints <==> NamedBy(s, inet, ticks, m, a)
    ensures a in At(s, inet, ticks, m).relays <==> ListedBy(s, inet, ticks, m, a)
    ensures a in At(s, inet, ticks, m).closeTargets <==> NamedBy(s, inet, ticks, m, a) || MetBy(s, ticks, m, a)
    decreases m
  {
    hide Turn, Names, ListsRelay, Greets, Taken;
    if m > 0 {
      var k := m - 1;
      KnownAre(s, inet, ticks, k, a);
      NextTurn(s, inet, ticks, k);
      TurnChanges(s, inet, Turns(s, inet, ticks[..k]), ticks[k], a);
      KnownStep(s, inet, ticks, k, a);
    }
  }

  lemma KnownStep(s: Setup, inet: Inet, ticks: seq<Tick>, k: nat, a: Address)
    requires k < |ticks|
    ensures NamedBy(s, inet, ticks, k + 1, a) <==>
              NamedBy(s, inet, ticks, k, a) || (Seen(s, ticks, k) && Names(s, inet, ticks[k].arrival.value, a))
    ensures ListedBy(s, inet, ticks, k + 1, a) <==>
              ListedBy(s, inet, ticks, k, a) || (Seen(s, ticks, k) && ListsRelay(s, inet, ticks[k].arrival.value, a))
    ensures MetBy(s, ticks, k + 1, a) <==>
              || MetBy(s, ticks, k, a)
              || (Seen(s, ticks, k) && ticks[k].arrival.value.address == a && Greets(ticks[k].arrival.value))
  {
    hide Names, ListsRelay, Greets, Taken;
  }

  /** Turn `k` looks at an F1 71 from a relay that was listed before. */
  ghost predicate LatchesAt(s: Setup, inet: Inet, ticks: seq<Tick>, k: nat) {
    && Seen(s, ticks, k) && IsKind(ticks[k].arrival.value.packet, 0x71)
    && ListedBy(s, inet, ticks, k, ticks[k].arrival.value.address)
  }

  /** In every run the latched relay is the sender of the first such packet. */
  lemma {:induction false} LatchedIsFirst(s: Setup, inet: Inet, ticks: seq<Tick>, m: nat)
    requires m <= |ticks|
    ensures At(s, inet, ticks, m).relayPort == None <==> forall k: nat | k < m :: !LatchesAt(s, inet, ticks, k)
    ensures forall k: nat | k < m && LatchesAt(s, inet, ticks, k) && (forall j: nat | j < k :: !LatchesAt(s, inet, ticks, j)) ::
              At(s, inet, ticks, m).relayPort == Some(ticks[k].arrival.value.address)
    decreases m
  {
    hide Turn, Taken, ListedBy;
    if m > 0 {
      var k := m - 1;
      LatchedIsFirst(s, inet, ticks, k);
      NextTurn(s, inet, ticks, k);
      if ticks[k].arrival.Some? {
        var a := ticks[k].arrival.value.address;
        KnownAre(s, inet, ticks, k, a);
        TurnChanges(s, inet, Turns(s, inet, ticks[..k]), ticks[k], a);
      } else {
        TurnChanges(s, inet, Turns(s, inet, ticks[..k]), ticks[k], Address([], 0));
      }
      assert LatchesAt(s, inet, ticks, k) ==> Seen(s, ticks, k);
      FirstStays(s, inet, ticks, k);
    }
  }

  lemma FirstStays(s: Setup, inet: Inet, ticks: seq<Tick>, k: nat)
    requires k < |ticks|
    ensures (forall j: nat | j < k + 1 :: !LatchesAt(s, inet, ticks, j)) <==>
              (forall j: nat | j < k :: !LatchesAt(s, inet, ticks, j)) && !LatchesAt(s, inet, ticks, k)
  {
  }

  /** Turn `k` looks at an F1 73 from the latched relay, and makes this request of it. */
  ghost predicate RequestsAt(s: Setup, inet: Inet, ticks: seq<Tick>, k: nat, request: bytes) {
    && Seen(s, ticks, k)
    && FromRelay(At(s, inet, ticks, k), ticks[k].arrival.value) && Asks(s, inet, ticks[k].arrival.value, request)
  }

  lemma TurnRequest(s: Setup, inet: Inet, w: World, tick: Tick, request: bytes)
    ensures var m, arrived := Turn(s, inet, w, tick).n, tick.arrival.Some?;
            && (arrived && FromRelay(w.n, tick.arrival.value) && Asks(s, inet, tick.arrival.value, request) ==>
                  m.request == Some(request))
            && (m.request == Some(request) ==>
                  || w.n.request == Some(request)
                  || (arrived && FromRelay(w.n, tick.arrival.value) && Asks(s, inet, tick.arrival.value, request)))
            && (m.request == None ==> w.n.request == None)
  {
    hide Handle, TimedSends, Asks;
    if tick.arrival.Some? {
      HandleRequest(s, inet, Timed(w.n, tick.now), tick.arrival.value, request);
    }
  }

  /** The last such packet among the first `m` turns comes in turn `k`. */
  ghost predicate LastRequestAt(s: Setup, inet: Inet, ticks: seq<Tick>, m: nat, k: nat, request: bytes) {
    k < m && RequestsAt(s, inet, ticks, k, request) && forall j: nat, r | k < j < m :: !RequestsAt(s, inet, ticks, j, r)
  }

  /** In every run the relay request is made from the last such packet. */
  lemma {:induction false} RequestIsLast(s: Setup, inet: Inet, ticks: seq<Tick>, m: nat, request: bytes)
    requires m <= |ticks|
    ensures At(s, inet, ticks, m).request == Some(request) <==> exists k: nat :: LastRequestAt(s, inet, ticks, m, k, request)
    decreases m
  {
    hide Turn, Taken, Asks, FromRelay;
    if m > 0 {
      var last := m - 1;
      RequestIsLast(s, inet, ticks, last, request);
      NextTurn(s, inet, ticks, last);
      TurnRequest(s, inet, Turns(s, inet, ticks[..last]), ticks[last], request);
      if r :| RequestsAt(s, inet, ticks, last, r) {
        TurnRequest(s, inet, Turns(s, inet, ticks[..last]), ticks[last], r);
        assert LastRequestAt(s, inet, ticks, m, last, r);
        assert forall k: nat | LastRequestAt(s, inet, ticks, m, k, request) :: k == last;
      } else {
        var after := At(s, inet, ticks, m).request;
        if after.Some? {
          TurnRequest(s, inet, Turns(s, inet, ticks[..last]), ticks[last], after.value);
          assert !RequestsAt(s, inet, ticks, last, after.value);
        }
        SameLast(s, inet, ticks, last, m, request);
      }
    }
  }

  lemma SameLast(s: Setup, inet: Inet, ticks: seq<Tick>, last: nat, m: nat, request: bytes)
    requires m == last + 1 && forall r :: !RequestsAt(s, inet, ticks, last, r)
    ensures (exists k: nat :: LastRequestAt(s, inet, ticks, m, k, request))
       <==> (exists k: nat :: LastRequestAt(s, inet, ticks, last, k, request))
  {
    hide RequestsAt;
    if k: nat :| LastRequestAt(s, inet, ticks, m, k, request) {
      assert LastRequestAt(s, inet, ticks, last, k, request);
    }
    if k: nat :| LastRequestAt(s, inet, ticks, last, k, request) {
      assert LastRequestAt(s, inet, ticks, m, k, request);
    }
  }

  /** Turn `k` sends the packet of its own accord or in answer. */
  ghost predicate SendsAt(s: Setup, inet: Inet, ticks: seq<Tick>, k: nat, e: Datagram) {
    && Taken(s, ticks, k)
    && (|| SendsTimed(s, At(s, inet, ticks, k), ticks[k].now, e)
        || (ticks[k].arrival.Some? && AnswersWith(s, inet, At(s, inet, ticks, k), ticks[k].arrival.value, e)))
  }

  lemma TurnSends(s: Setup, inet: Inet, w: World, tick: Tick, e: Datagram)
    ensures e in Turn(s, inet, w, tick).sent <==>
              || e in w.sent || SendsTimed(s, w.n, tick.now, e)
              || (tick.arrival.Some? && AnswersWith(s, inet, w.n, tick.arrival.value, e))
  {
    hide Handle, TimedSends, SendsTimed, Names, Asks, ReadsAt, IsDirectory;
    TimedSendsAre(s, w.n, tick.now, e);
    if tick.arrival.Some? {
      HandleSends(s, inet, Timed(w.n, tick.now), tick.arrival.value, e);
    }
  }

  /** In every run exactly this is sent. */
  lemma {:induction false} SentAre(s: Setup, inet: Inet, ticks: seq<Tick>, m: nat, e: Datagram)
    requires m <= |ticks|
    ensures e in Turns(s, inet, ticks[..m]).sent <==> exists k: nat :: k < m && SendsAt(s, inet, ticks, k, e)
    decreases m
  {
    hide Turn, Taken, SendsTimed, AnswersWith;
    if m > 0 {
      var last := m - 1;
      SentAre(s, inet, ticks, last, e);
      NextTurn(s, inet, ticks, last);
      TurnSends(s, inet, Turns(s, inet, ticks[..last]), ticks[last], e);
      SendsStep(s, inet, ticks, last, e);
    }
  }

  lemma SendsStep(s: Setup, inet: Inet, ticks: seq<Tick>, last: nat, e: Datagram)
    ensures (exists k: nat :: k < last + 1 && SendsAt(s, inet, ticks, k, e)) <==>
              (exists k: nat :: k < last && SendsAt(s, inet, ticks, k, e)) || SendsAt(s, inet, ticks, last, e)
  {
    hide SendsAt;
  }
}
