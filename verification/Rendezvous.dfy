/** `CS2Session.connect` in its own form: the loop and the variables it updates. */
module Rendezvous {
  import opened Bytes
  import opened Cs2Session
  import opened Connect
  import Adoption

  ghost function SetOf(log: seq<Datagram>): set<Datagram> {
    set d | d in log
  }

  lemma SetOfAppend(a: seq<Datagram>, b: seq<Datagram>)
    ensures SetOf(a + b) == SetOf(a) + SetOf(b)
  {
  }

  lemma NoTurns(setup: Setup, inet: Inet, ticks: seq<Tick>)
    ensures Turns(setup, inet, ticks[..0]) == Connect.World(BEGINNING, {}, {})
  {
  }

  /** How the loop ends; `Unfinished` says the given turns are used up before the deadline. */
  datatype Ending = Connected | Expired | Unfinished

  class Loop {
    const setup: Setup
    const inet: Inet
    var endpoints: set<Address>
    var relays: set<Address>
    var relayPort: Option<Address>
    var request: Option<bytes>
    var closeTargets: set<Address>
    var lastDirectory: real
    var lastList: real
    var lastRelay: real
    var lastPunch: real
    var helloSent: bool
    var peer: Option<Address>
    /** Everything handed to `_send_clear`, oldest first. */
    var sends: seq<Datagram>

    ghost function View(): Negotiation
      reads this
    {
      Negotiation(endpoints, relays, relayPort, request, closeTargets, lastDirectory, lastList, lastRelay, lastPunch,
                  helloSent, peer)
    }

    constructor (setup: Setup, inet: Inet)
      ensures this.setup == setup && this.inet == inet && View() == BEGINNING && sends == []
    {
      this.setup, this.inet := setup, inet;
      endpoints, relays, relayPort, request, closeTargets := {}, {}, None, None, {};
      lastDirectory, lastList, lastRelay, lastPunch := 0.0, 0.0, 0.0, 0.0;
      helloSent, peer, sends := false, None, [];
    }

    method SendEach(packet: bytes, targets: set<Address>)
      modifies this`sends
      ensures old(sends) <= sends && SetOf(sends) == SetOf(old(sends)) + Each(packet, targets)
    {
      var todo := targets;
      while todo != {}
        invariant todo <= targets && old(sends) <= sends
        invariant SetOf(sends) == SetOf(old(sends)) + Each(packet, targets - todo)
        decreases |todo|
      {
        var target :| target in todo;
        SetOfAppend(sends, [Datagram(packet, target)]);
        sends := sends + [Datagram(packet, target)];
        todo := todo - {target};
      }
    }

    method SendDirectory(now: real)
      modifies this`sends, this`helloSent, this`lastDirectory, this`lastList
      ensures old(sends) <= sends
      ensures SetOf(sends) == SetOf(old(sends)) + DirectorySends(setup, old(View()), now) + ListSends(setup, old(View()), now)
      ensures helloSent == Timed(old(View()), now).helloSent
      ensures lastDirectory == Timed(old(View()), now).lastDirectory && lastList == Timed(old(View()), now).lastList
    {
      if now - lastDirectory >= DIRECTORY_RETRY {
        if !helloSent {
          SendEach(Bare(HELLO), setup.Directory());
        }
        SendEach(setup.Lookup(), setup.Directory());
        helloSent, lastDirectory := true, now;
      }
      if now - lastList >= LIST_RETRY {
        SendEach(setup.ListRequest(), setup.Directory());
        lastList := now;
      }
    }

    method SendRelays(now: real)
      modifies this`sends, this`lastRelay
      ensures old(sends) <= sends && SetOf(sends) == SetOf(old(sends)) + RelaySends(setup, old(View()), now)
      ensures lastRelay == Timed(old(View()), now).lastRelay
    {
      if relays != {} && now - lastRelay >= RELAY_RETRY {
        if relayPort.None? {
          SendEach(Bare(RELAY_HELLO), relays);
        } else if request.None? {
          SendEach(Bare(PORT_REQUEST), {relayPort.value});
        } else {
          SendEach(request.value, setup.Directory());
        }
        lastRelay := now;
      }
    }

    method SendPunches(now: real)
      modifies this`sends, this`lastPunch
      ensures old(sends) <= sends && SetOf(sends) == SetOf(old(sends)) + PunchSends(setup, old(View()), now)
      ensures lastPunch == Timed(old(View()), now).lastPunch
    {
      if endpoints != {} && now - lastPunch >= PUNCH_RETRY {
        SendEach(setup.Punch(), Around(endpoints));
        lastPunch := now;
      }
    }

    method OnEndpoint(d: Datagram)
      modifies this`sends, this`endpoints, this`closeTargets
      ensures Did(Connect.OnEndpoint(setup, inet, old(View()), d), old(sends))
    {
      if d.address in setup.Directory() {
        var found := Decoded(inet, d.packet, 4);
        endpoints := endpoints + found;
        closeTargets := closeTargets + found;
        SendEach(setup.Punch(), found);
      }
    }

    method OnRelayHello(d: Datagram)
      modifies this`sends, this`relayPort
      ensures Did(Connect.OnRelayHello(old(View()), d), old(sends))
    {
      if d.address in relays && relayPort.None? {
        relayPort := Some(d.address);
        SendEach(Bare(PORT_REQUEST), {d.address});
      }
    }

    method OnRelayPort(d: Datagram)
      modifies this`sends, this`request
      ensures Did(Connect.OnRelayPort(setup, inet, old(View()), d), old(sends))
    {
      if d.address !in relays || relayPort != Some(d.address) {
        return;
      }
      var made := setup.RequestFromAck(inet, d.address, d.packet);
      if made.None? {
        return;
      }
      request := made;
      SendEach(made.value, setup.Directory());
    }

    method OnRendezvous(d: Datagram)
      modifies this`sends
      ensures Did(Connect.OnRendezvous(setup, inet, old(View()), d), old(sends))
    {
      if d.address in setup.Directory() && |d.packet| == 24 {
        var target := Decoded(inet, d.packet, 4);
        if target != {} {
          SendEach(setup.RelayPunch(d.packet[20..24]), target + {d.address});
        }
      }
    }

    method OnRelayTargets(d: Datagram)
      modifies this`sends
      ensures Did(Connect.OnRelayTargets(inet, old(View()), d), old(sends))
    {
      if |d.packet| == 36 {
        SendEach(Bare(RELAY_PACKET), Decoded(inet, d.packet, 4) + Decoded(inet, d.packet, 20));
      }
    }

    method OnPunch(d: Datagram)
      modifies this`sends, this`peer
      ensures Did(Connect.OnPunch(setup, old(View()), d), old(sends))
    {
      if !setup.preferRelay && d.address !in setup.Directory() && setup.Names(d.packet) {
        peer := Some(d.address);
        SendEach(setup.Readiness(), {d.address});
        SendEach(Bare(ALIVE), {d.address});
      }
    }

    method OnReadiness(d: Datagram)
      modifies this`sends, this`peer
      ensures Did(Connect.OnReadiness(setup, old(View()), d), old(sends))
    {
      if d.address !in setup.Directory() && setup.Names(d.packet) {
        if !setup.preferRelay {
          peer := Some(d.address);
        }
        SendEach(Bare(READY), {d.address});
      }
    }

    method OnRelayReady(d: Datagram)
      modifies this`sends, this`peer
      ensures Did(Connect.OnRelayReady(setup, old(View()), d), old(sends))
    {
      if d.address !in setup.Directory() && setup.Names(d.packet) {
        peer := Some(d.address);
        SendEach(Bare(ALIVE), {d.address});
      }
    }

    /** The object is as an answer says, and the answer's packets were sent. */
    ghost predicate Did(a: Answer, before: seq<Datagram>)
      reads this
    {
      View() == a.n && before <= sends && SetOf(sends) == SetOf(before) + a.sends
    }

    method Receive(d: Datagram)
      modifies this
      ensures Did(Handle(setup, inet, old(View()), d), old(sends))
    {
      var kind := Code(d.packet);
      if kind in {0x41, 0x42, 0x84} {
        closeTargets := closeTargets + {d.address};
      }
      if kind == 0x40 {
        OnEndpoint(d);
      } else if kind == 0x69 {
        if d.address in setup.Directory() {
          relays := relays + RelayList(inet, d.packet);
        }
      } else if kind == 0x71 {
        OnRelayHello(d);
      } else if kind == 0x73 {
        OnRelayPort(d);
      } else if kind == 0x82 {
        OnRendezvous(d);
      } else if kind == 0x02 {
        OnRelayTargets(d);
      } else if kind == 0x41 {
        OnPunch(d);
      } else if kind == 0x42 {
        OnReadiness(d);
      } else if kind == 0x84 {
        OnRelayReady(d);
      }
    }

    method SendTimed(now: real)
      modifies this
      ensures View() == Timed(old(View()), now)
      ensures old(sends) <= sends && SetOf(sends) == SetOf(old(sends)) + TimedSends(setup, old(View()), now)
    {
      SendDirectory(now);
      SendRelays(now);
      SendPunches(now);
    }

    /** `connect` once the socket and the local address are known. `ticks` are the turns of the
        loop; the clock is read at the start of each. */
    method Run(deadline: real, ticks: seq<Tick>) returns (ending: Ending, used: nat)
      requires View() == BEGINNING && sends == []
      modifies this
      ensures used <= |ticks|
      ensures View() == Turns(setup, inet, ticks[..used]).n && SetOf(sends) == Turns(setup, inet, ticks[..used]).sent
      ensures ending == Connected ==> peer.Some?
      ensures ending != Connected ==> peer.None?
      ensures ending == Expired ==> used < |ticks| && ticks[used].now >= deadline
      ensures ending == Unfinished ==> used == |ticks|
      ensures forall k: nat | k < used :: ticks[k].now < deadline
    {
      hide Turns, Handle, TimedSends, Timed;
      NoTurns(setup, inet, ticks);
      used := 0;
      while used < |ticks|
        invariant used <= |ticks| && peer.None? && forall k: nat | k < used :: ticks[k].now < deadline
        invariant View() == Turns(setup, inet, ticks[..used]).n && SetOf(sends) == Turns(setup, inet, ticks[..used]).sent
      {
        if ticks[used].now >= deadline {
          return Expired, used;
        }
        SendTimed(ticks[used].now);
        if ticks[used].arrival.Some? {
          Receive(ticks[used].arrival.value);
        }
        Adoption.OneTurn(setup, inet, ticks, used);
        used := used + 1;
        if peer.Some? {
          return Connected, used;
        }
      }
      return Unfinished, used;
    }
  }

  /** `connect` on the session object: the loop, then the adopted peer, or at the deadline the close
      that tells every endpoint met on the way. Whoever becomes the peer is among those endpoints,
      so a later `close` tells exactly them. */
  method ConnectSession(session: CS2Session, setup: Setup, inet: Inet, deadline: real, ticks: seq<Tick>)
    returns (ending: Ending, used: nat, ghost told: seq<Address>)
    requires session.Valid() && session.peer.None? && !session.closed && session.closeTargets == {} && session.sends == []
    requires setup.Good()
    modifies session
    ensures session.Valid() && session.View() == old(session.View()) && used <= |ticks|
    ensures session.closeTargets == Turns(setup, inet, ticks[..used]).n.closeTargets
    ensures session.peer == Turns(setup, inet, ticks[..used]).n.peer
    ensures ending == Connected <==> session.peer.Some?
    ensures session.peer.Some? <==> !Adoption.NoOffer(setup, ticks[..used])
    ensures session.peer.Some? ==> session.peer.value in session.closeTargets && session.peer.value !in setup.Directory()
    ensures session.closed <==> ending == Expired
    ensures ending == Unfinished ==> used == |ticks|
    ensures forall k: nat | k < used :: ticks[k].now < deadline
    ensures ending != Expired ==> SetOf(session.sends) == Turns(setup, inet, ticks[..used]).sent
    ensures ending == Expired ==>
              && used < |ticks| && ticks[used].now >= deadline
              && Distinct(told) && (forall t :: t in told <==> t in session.closeTargets)
              && |told| <= |session.sends| && session.sends[|session.sends| - |told|..] == Farewells(told)
              && SetOf(session.sends[..|session.sends| - |told|]) == Turns(setup, inet, ticks[..used]).sent
  {
    told := [];
    var loop := new Loop(setup, inet);
    ending, used := loop.Run(deadline, ticks);
    PeerIsSound(setup, inet, ticks[..used]);
    Adoption.PeerIsFirstOffer(setup, inet, ticks[..used]);
    session.closeTargets, session.peer, session.sends := loop.closeTargets, loop.peer, loop.sends;
    assert session.View() == old(session.View());
    if ending == Expired {
      ghost var before := session.sends;
      var sent;
      sent, told := session.Close();
      assert session.sends[..|before|] == before;
    }
  }
}
