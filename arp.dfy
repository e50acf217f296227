/**
 * The ARP classifier run by the receive tap: reads the EtherType, the
 * operation code of the ARP fixed header and, for a request or a reply,
 * the four addresses that follow the fixed header (the packet format of
 * RFC 826 with hln = 6 and pln = 4). The frame is only read.
 */
module Arp {
  import opened NetTypes

  /** Size of the ARP fixed header (`sizeof(struct arphdr)`): hrd, pro, hln, pln, op. */
  const ArpHdrLen: nat := 8
  /** Octets of an IPv4 protocol address. */
  const IpAlen: nat := 4
  /** Octets of the address block the source reads after the fixed header. */
  const ArpBodyLen: nat := 2 * EthAlen + 2 * IpAlen

  /** ar$sha, ar$spa, ar$tha, ar$tpa, each in wire order. */
  datatype ArpAddrs = ArpAddrs(senderMac: seq<byte>, senderIp: seq<byte>,
                               targetMac: seq<byte>, targetIp: seq<byte>)

  predicate WellSized(a: ArpAddrs) {
    |a.senderMac| == EthAlen && |a.senderIp| == IpAlen &&
    |a.targetMac| == EthAlen && |a.targetIp| == IpAlen
  }

  /** The address block as it appears on the wire. */
  function EncodeAddrs(a: ArpAddrs): (r: seq<byte>)
    requires WellSized(a)
    ensures |r| == ArpBodyLen
  {
    a.senderMac + a.senderIp + a.targetMac + a.targetIp
  }

  /**
   * The addresses at the source's fixed offsets from the first byte after
   * the fixed header: sender MAC 0..5, sender IP 6..9, target MAC 10..15,
   * target IP 16..19.
   */
  function DecodeAddrs(body: seq<byte>): (r: ArpAddrs)
    requires |body| >= ArpBodyLen
    ensures WellSized(r)
  {
    ArpAddrs(body[0..6], body[6..10], body[10..16], body[16..20])
  }

  lemma DecodeEncode(a: ArpAddrs, rest: seq<byte>)
    requires WellSized(a)
    ensures DecodeAddrs(EncodeAddrs(a) + rest) == a
  {
  }

  lemma EncodeDecode(body: seq<byte>)
    requires |body| >= ArpBodyLen
    ensures EncodeAddrs(DecodeAddrs(body)) == body[..ArpBodyLen]
  {
  }

  /** The ar$op field, read big-endian from octets 6 and 7 of the fixed header. */
  function Opcode(net: seq<byte>): (op: nat)
    requires |net| >= ArpHdrLen
    ensures op < 0x1_0000
  {
    net[6] as nat * 256 + net[7] as nat
  }

  /** The source decodes addresses only for these two operation codes. */
  predicate IsLoggedOp(op: nat) {
    op == ArpOpReply || op == ArpOpRequest
  }

  /**
   * What the receive tap learns from one frame. The source logs the
   * addresses of a request or a reply; the model returns them instead.
   */
  datatype Observation =
    | NotArp                             // EtherType is not ARP: nothing else is read
    | ArpTruncated                       // the source would read past the end of the frame
    | ArpOther(op: nat)                  // ARP with an operation code other than 1 or 2
    | ArpSeen(op: nat, addrs: ArpAddrs)  // an ARP request or reply and its four addresses

  /**
   * Classification of a frame whose EtherType is `protocol` and whose
   * network-layer bytes (from the ARP fixed header on) are `net`.
   */
  function Classify(protocol: nat, net: seq<byte>): (r: Observation)
    ensures r.NotArp? <==> protocol != EthPArp
    ensures r.ArpSeen? <==>
      protocol == EthPArp && |net| >= ArpHdrLen + ArpBodyLen && IsLoggedOp(Opcode(net))
    ensures r.ArpSeen? ==>
      r.op == Opcode(net) && WellSized(r.addrs) &&
      EncodeAddrs(r.addrs) == net[ArpHdrLen..ArpHdrLen + ArpBodyLen]
    ensures r.ArpOther? <==>
      protocol == EthPArp && |net| >= ArpHdrLen && !IsLoggedOp(Opcode(net))
    ensures r.ArpOther? ==> r.op == Opcode(net)
  {
    if protocol != EthPArp then NotArp
    else if |net| < ArpHdrLen then ArpTruncated
    else
      var op := Opcode(net);
      if !IsLoggedOp(op) then ArpOther(op)
      else if |net| < ArpHdrLen + ArpBodyLen then ArpTruncated
      else
        EncodeDecode(net[ArpHdrLen..]);
        ArpSeen(op, DecodeAddrs(net[ArpHdrLen..]))
  }

  /** The reply and the request branches read the addresses at the same offsets. */
  lemma {:induction false} ReplyAndRequestDecodeAlike(net1: seq<byte>, net2: seq<byte>)
    requires |net1| >= ArpHdrLen + ArpBodyLen && |net2| >= ArpHdrLen + ArpBodyLen
    requires Opcode(net1) == ArpOpReply && Opcode(net2) == ArpOpRequest
    requires net1[ArpHdrLen..ArpHdrLen + ArpBodyLen] == net2[ArpHdrLen..ArpHdrLen + ArpBodyLen]
    ensures Classify(EthPArp, net1).addrs == Classify(EthPArp, net2).addrs
  {
    var a1 := Classify(EthPArp, net1).addrs;
    var a2 := Classify(EthPArp, net2).addrs;
    DecodeEncode(a1, []);
    DecodeEncode(a2, []);
    assert EncodeAddrs(a1) + [] == EncodeAddrs(a2) + [];
  }

  /**
   * The sender MAC in the order the source's log line prints it:
   * octet 5 first, octet 0 last.
   */
  function LoggedSenderMacAsWritten(body: seq<byte>): (r: seq<byte>)
    requires |body| >= ArpBodyLen
    ensures |r| == EthAlen
    ensures forall i :: 0 <= i < EthAlen ==> r[i] == body[EthAlen - 1 - i]
  {
    [body[5], body[4], body[3], body[2], body[1], body[0]]
  }

  /**
   * The sender 00:11:22:33:44:55 is printed as 55:44:33:22:11:00, while
   * the target MAC of the same frame is printed in wire order.
   */
  lemma SenderMacLoggedReversed()
    ensures var body := [0x00, 0x11, 0x22, 0x33, 0x44, 0x55] + Zeros(ArpBodyLen - EthAlen);
      LoggedSenderMacAsWritten(body) != DecodeAddrs(body).senderMac &&
      LoggedSenderMacAsWritten(body) == [0x55, 0x44, 0x33, 0x22, 0x11, 0x00]
  {
  }
}
