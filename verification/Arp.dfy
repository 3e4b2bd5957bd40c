/** The ARP packet (the "Packet format" section of RFC 826) and the conflict check of section 2.1.1 of RFC 5227. */
module Arp {
  import opened Bytes

  newtype uint16 = x: int | 0 <= x < 0x1_0000

  datatype Datagram = Datagram(
    htype: uint16, ptype: uint16, hlen: byte, plen: byte, oper: uint16,
    sha: seq<byte>, spa: seq<byte>, tha: seq<byte>, tpa: seq<byte>)

  /** The addresses are as long as the packet says. */
  predicate WellFormed(d: Datagram) {
    |d.sha| == |d.tha| == d.hlen as nat && |d.spa| == |d.tpa| == d.plen as nat
  }

  // ---------------------------------------------------------------- fields and bytes

  function Big(v: uint16): (s: seq<byte>)
    ensures |s| == 2
  {
    [(v / 0x100) as byte, (v % 0x100) as byte]
  }

  function Number(hi: byte, lo: byte): uint16 {
    (hi as int * 0x100 + lo as int) as uint16
  }

  lemma BigNumber(v: uint16, hi: byte, lo: byte)
    ensures Number(Big(v)[0], Big(v)[1]) == v
    ensures Big(Number(hi, lo)) == [hi, lo]
  {
  }

  function Header(d: Datagram): (s: seq<byte>)
    ensures |s| == 8
  {
    Big(d.htype) + Big(d.ptype) + [d.hlen, d.plen] + Big(d.oper)
  }

  /** The bytes of a datagram. */
  function Encode(d: Datagram): seq<byte> {
    Header(d) + d.sha + d.spa + d.tha + d.tpa
  }

  /** At most n bytes of the front, as bytes.Buffer's Next takes them. */
  function Front(s: seq<byte>, n: nat): seq<byte> {
    if n <= |s| then s[..n] else s
  }

  function Rest(s: seq<byte>, n: nat): seq<byte> {
    if n <= |s| then s[n..] else []
  }

  /** A field that is not there completely reads as zero, and what there is of it is gone. */
  function Read16(s: seq<byte>): uint16 {
    if |s| >= 2 then Number(s[0], s[1]) else 0
  }

  function Read8(s: seq<byte>): byte {
    if |s| >= 1 then s[0] else 0
  }

  /** What the bytes mean, however few there are. */
  function Decode(s: seq<byte>): Datagram {
    var h := Read8(Rest(s, 4)) as nat;
    var p := Read8(Rest(s, 5)) as nat;
    var a := Rest(s, 8);
    Datagram(Read16(s), Read16(Rest(s, 2)), Read8(Rest(s, 4)), Read8(Rest(s, 5)), Read16(Rest(s, 6)),
             Front(a, h), Front(Rest(a, h), p), Front(Rest(a, h + p), h), Front(Rest(a, 2 * h + p), p))
  }

  lemma RestOfRest(s: seq<byte>, m: nat, n: nat)
    ensures Rest(Rest(s, m), n) == Rest(s, m + n)
  {
  }

  // ---------------------------------------------------------------- the buffer

  /** bytes.Buffer: written at the end, read from the front. */
  class Buffer {
    var data: seq<byte>

    constructor (data: seq<byte>)
      ensures this.data == data
    {
      this.data := data;
    }

    method Write(s: seq<byte>)
      modifies this
      ensures data == old(data) + s
    {
      data := data + s;
    }

    method WriteUint16(v: uint16)
      modifies this
      ensures data == old(data) + Big(v)
    {
      data := data + [(v / 0x100) as byte, (v % 0x100) as byte];
    }

    method Next(n: nat) returns (s: seq<byte>)
      modifies this
      ensures s == Front(old(data), n) && data == Rest(old(data), n)
    {
      var k := if n <= |data| then n else |data|;
      s, data := data[..k], data[k..];
    }

    /** binary.Read of two bytes; a failed read changes nothing but the buffer. */
    method ReadUint16() returns (v: uint16)
      modifies this
      ensures v == Read16(old(data)) && data == Rest(old(data), 2)
    {
      var s := Next(2);
      v := if |s| == 2 then (s[0] as int * 0x100 + s[1] as int) as uint16 else 0;
    }

    method ReadByte() returns (v: byte)
      modifies this
      ensures v == Read8(old(data)) && data == Rest(old(data), 1)
    {
      var s := Next(1);
      v := if |s| == 1 then s[0] else 0;
    }
  }

  method Marshal(d: Datagram) returns (s: seq<byte>)
    ensures s == Encode(d)
  {
    var buf := new Buffer([]);
    buf.WriteUint16(d.htype);
    buf.WriteUint16(d.ptype);
    buf.Write([d.hlen]);
    buf.Write([d.plen]);
    buf.WriteUint16(d.oper);
    assert buf.data == Header(d);
    buf.Write(d.sha);
    buf.Write(d.spa);
    buf.Write(d.tha);
    buf.Write(d.tpa);
    return buf.data;
  }

  method ParseArpDatagram(buffer: seq<byte>) returns (d: Datagram)
    ensures d == Decode(buffer)
  {
    hide Read16, Read8, Rest, Front;
    var b := new Buffer(buffer);
    var htype := b.ReadUint16();
    var ptype := b.ReadUint16();
    RestOfRest(buffer, 2, 2);
    var hlen := b.ReadByte();
    RestOfRest(buffer, 4, 1);
    var plen := b.ReadByte();
    RestOfRest(buffer, 5, 1);
    var oper := b.ReadUint16();
    RestOfRest(buffer, 6, 2);
    var sha := b.Next(hlen as nat);
    var spa := b.Next(plen as nat);
    RestOfRest(Rest(buffer, 8), hlen as nat, plen as nat);
    var tha := b.Next(hlen as nat);
    RestOfRest(Rest(buffer, 8), hlen as nat + plen as nat, hlen as nat);
    var tpa := b.Next(plen as nat);
    return Datagram(htype, ptype, hlen, plen, oper, sha, spa, tha, tpa);
  }

  // ---------------------------------------------------------------- round trips

  lemma AddressesOf(h: nat, p: nat, sha: seq<byte>, spa: seq<byte>, tha: seq<byte>, tpa: seq<byte>, rest: seq<byte>)
    requires |sha| == |tha| == h && |spa| == |tpa| == p
    ensures var a := sha + spa + tha + tpa + rest;
            && Front(a, h) == sha && Front(Rest(a, h), p) == spa
            && Front(Rest(a, h + p), h) == tha && Front(Rest(a, 2 * h + p), p) == tpa
  {
  }

  /** The fixed fields of a text that begins with a header. */
  lemma HeaderOf(s: seq<byte>)
    requires |s| >= 8
    ensures Read16(s) == Number(s[0], s[1]) && Read16(Rest(s, 2)) == Number(s[2], s[3])
    ensures Read8(Rest(s, 4)) == s[4] && Read8(Rest(s, 5)) == s[5] && Read16(Rest(s, 6)) == Number(s[6], s[7])
    ensures Rest(s, 8) == s[8..]
  {
    assert Rest(s, 6)[1] == s[7] && Rest(s, 2)[1] == s[3];
  }

  /** The fields of RFC 826 in their order, high bytes first. */
  lemma BytesOf(d: Datagram)
    requires WellFormed(d)
    ensures var h, p := d.hlen as nat, d.plen as nat;
            var s := Encode(d);
            && |s| == 8 + 2 * (h + p)
            && d.htype as nat == s[0] as nat * 0x100 + s[1] as nat
            && d.ptype as nat == s[2] as nat * 0x100 + s[3] as nat
            && d.hlen == s[4] && d.plen == s[5] && d.oper as nat == s[6] as nat * 0x100 + s[7] as nat
            && d.sha == s[8..8 + h] && d.spa == s[8 + h..8 + h + p]
            && d.tha == s[8 + h + p..8 + 2 * h + p] && d.tpa == s[8 + 2 * h + p..]
  {
  }

  /** Reading what was written gives the datagram back, whatever follows it. */
  lemma DecodeEncode(d: Datagram, rest: seq<byte>)
    requires WellFormed(d)
    ensures Decode(Encode(d) + rest) == d
  {
    var s, head := Encode(d) + rest, Header(d);
    BigNumber(d.htype, 0, 0);
    BigNumber(d.ptype, 0, 0);
    BigNumber(d.oper, 0, 0);
    HeaderOf(s);
    assert s[8..] == d.sha + d.spa + d.tha + d.tpa + rest;
    assert s[0] == head[0] && s[1] == head[1] && s[2] == head[2] && s[3] == head[3];
    assert s[4] == head[4] && s[5] == head[5] && s[6] == head[6] && s[7] == head[7];
    hide Encode, Front, Rest, Number, Read16, Read8;
    AddressesOf(d.hlen as nat, d.plen as nat, d.sha, d.spa, d.tha, d.tpa, rest);
  }

  /** The length a complete packet with this header has. */
  function PacketLength(s: seq<byte>): nat
    requires |s| >= 8
  {
    8 + 2 * (s[4] as nat + s[5] as nat)
  }

  /** Writing what was read gives back what was consumed: the packet, or all there is of one that is cut short. */
  lemma EncodeDecode(s: seq<byte>)
    requires |s| >= 8
    ensures Encode(Decode(s)) == Front(s, PacketLength(s))
    ensures |s| >= PacketLength(s) ==> WellFormed(Decode(s))
  {
    hide Front, Rest, Number, Big, Read16, Read8;
    var d, h, p, a := Decode(s), s[4] as nat, s[5] as nat, s[8..];
    BigNumber(0, s[0], s[1]);
    BigNumber(0, s[2], s[3]);
    BigNumber(0, s[6], s[7]);
    HeaderOf(s);
    assert Header(d) == s[..8];
    FourFronts(a, h, p);
    HeadFront(s, 2 * (h + p));
    assert Encode(d) == s[..8] + (d.sha + d.spa + d.tha + d.tpa);
    if |s| >= PacketLength(s) { FullFronts(a, h, p); }
  }

  lemma HeadFront(s: seq<byte>, n: nat)
    requires |s| >= 8
    ensures Front(s, 8 + n) == s[..8] + Front(s[8..], n)
  {
  }

  lemma FullFronts(a: seq<byte>, h: nat, p: nat)
    requires |a| >= 2 * (h + p)
    ensures |Front(a, h)| == h && |Front(Rest(a, h), p)| == p
    ensures |Front(Rest(a, h + p), h)| == h && |Front(Rest(a, 2 * h + p), p)| == p
  {
  }

  lemma FourFronts(a: seq<byte>, h: nat, p: nat)
    ensures Front(a, h) + Front(Rest(a, h), p) + Front(Rest(a, h + p), h) + Front(Rest(a, 2 * h + p), p) ==
      Front(a, 2 * (h + p))
  {
    hide Front, Rest;
    TwoFronts(a, h, p);
    TwoFronts(a, h + p, h);
    assert h + p + h == 2 * h + p;
    TwoFronts(a, 2 * h + p, p);
    assert 2 * h + p + p == 2 * (h + p);
  }

  lemma TwoFronts(a: seq<byte>, m: nat, n: nat)
    ensures Front(a, m) + Front(Rest(a, m), n) == Front(a, m + n)
  {
  }

  /** Less than a header carries no addresses. */
  lemma NoAddresses(s: seq<byte>)
    requires |s| < 8
    ensures var d := Decode(s); d.sha == d.spa == d.tha == d.tpa == []
  {
  }

  // ---------------------------------------------------------------- the conflict check

  type IPv4 = s: seq<byte> | |s| == 4 witness [0, 0, 0, 0]

  /** newArpRequest */
  function NewArpRequest(srcMac: seq<byte>, srcIP: IPv4, dstMac: seq<byte>, dstIP: IPv4): Datagram {
    Datagram(1, 0x0800, 6, 4, 1, srcMac, srcIP, dstMac, dstIP)
  }

  /** Somebody with another MAC uses or probes the address. */
  predicate Conflicting(d: Datagram, ip: IPv4, mac: seq<byte>) {
    (d.spa == ip || d.tpa == ip) && d.sha != mac
  }

  /** One receive: a frame's payload, an interrupted or timed-out call, or a broken socket. */
  datatype Received = Frame(payload: seq<byte>) | TryAgain | Broken

  datatype Outcome = Conflict | NoConflict | Error

  predicate Decides(r: Received, ip: IPv4, mac: seq<byte>) {
    r.Broken? || (r.Frame? && Conflicting(Decode(r.payload), ip, mac))
  }

  /** The receive loop over what arrives until the announcement wait is over: a conflict is reported exactly when a
      conflicting packet arrives before the socket breaks, and nothing exactly when neither happens. */
  method ReceiveLoop(arriving: seq<Received>, ip: IPv4, mac: seq<byte>) returns (outcome: Outcome)
    ensures outcome.NoConflict? <==> forall i | 0 <= i < |arriving| :: !Decides(arriving[i], ip, mac)
    ensures outcome.Conflict? <==>
              exists i | 0 <= i < |arriving| :: arriving[i].Frame? && FirstToDecide(arriving, i, ip, mac)
    ensures outcome.Error? <==>
              exists i | 0 <= i < |arriving| :: arriving[i].Broken? && FirstToDecide(arriving, i, ip, mac)
  {
    hide Decode;
    for i := 0 to |arriving|
      invariant forall k | 0 <= k < i :: !Decides(arriving[k], ip, mac)
    {
      match arriving[i]
      case TryAgain =>
      case Broken =>
        assert FirstToDecide(arriving, i, ip, mac);
        return Error;
      case Frame(payload) =>
        var dg := ParseArpDatagram(payload);
        if dg.spa == ip {
          if dg.sha == mac { continue; }
          assert FirstToDecide(arriving, i, ip, mac);
          return Conflict;
        }
        if dg.tpa == ip && dg.sha != mac {
          assert FirstToDecide(arriving, i, ip, mac);
          return Conflict;
        }
    }
    return NoConflict;
  }

  predicate FirstToDecide(arriving: seq<Received>, i: nat, ip: IPv4, mac: seq<byte>) {
    && i < |arriving| && Decides(arriving[i], ip, mac)
    && forall k | 0 <= k < i :: !Decides(arriving[k], ip, mac)
  }

  /** The node's own probe, heard again, is no conflict; the same probe of a host with another MAC is one. */
  lemma ProbesOnTheWire(ip: IPv4, mac: seq<byte>, other: seq<byte>, trailing: seq<byte>)
    requires |mac| == |other| == 6
    ensures var broadcast: seq<byte> := [0xff, 0xff, 0xff, 0xff, 0xff, 0xff];
            Conflicting(Decode(Encode(NewArpRequest(other, ip, broadcast, ip)) + trailing), ip, mac) <==> other != mac
  {
    DecodeEncode(NewArpRequest(other, ip, [0xff, 0xff, 0xff, 0xff, 0xff, 0xff], ip), trailing);
    hide Decode, Encode;
  }

  /** The bytes of a probe: Ethernet and IPv4, a request, the sender, the target. */
  lemma ProbeBytes(ip: IPv4, mac: seq<byte>, target: seq<byte>)
    ensures Encode(NewArpRequest(mac, ip, target, ip)) == [0, 1, 8, 0, 6, 4, 0, 1] + mac + ip + target + ip
  {
    assert Header(NewArpRequest(mac, ip, target, ip)) == [0, 1, 8, 0, 6, 4, 0, 1];
  }

  /** A cut-off frame cannot conflict. */
  lemma ShortFramesAreHarmless(payload: seq<byte>, ip: IPv4, mac: seq<byte>)
    requires |payload| < 8
    ensures !Conflicting(Decode(payload), ip, mac)
  {
    NoAddresses(payload);
  }

  const MAX_CONFLICTS: nat := 10

  /** DetectIpConflictWithGratuitousArp over the outcomes of its attempts: a clean attempt ends it; after ten without
      one the last decides. */
  method DetectIpConflict(attempts: seq<Outcome>) returns (conflict: bool, failed: bool)
    requires |attempts| >= 10
    ensures !conflict && !failed <==> NoConflict in attempts[..10]
    ensures conflict || failed ==> conflict == attempts[9].Conflict? && failed == attempts[9].Error?
  {
    conflict, failed := false, false;
    for i := 0 to MAX_CONFLICTS
      invariant NoConflict !in attempts[..i]
      invariant i > 0 ==> conflict == attempts[i - 1].Conflict? && failed == attempts[i - 1].Error?
    {
      assert attempts[..i + 1] == attempts[..i] + [attempts[i]];
      conflict, failed := attempts[i].Conflict?, attempts[i].Error?;
      if failed { continue; }
      if !conflict {
        assert attempts[i] in attempts[..MAX_CONFLICTS] by { assert attempts[..MAX_CONFLICTS][i] == attempts[i]; }
        return false, false;
      }
    }
  }
}
