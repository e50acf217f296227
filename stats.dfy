/**
 * The module's single statistics block (`static struct net_device_stats
 * stats`): four counters that the receive tap and the transmit redirector
 * update and that `get_stats` hands out. Counters are unbounded here.
 */
module Stats {
  import opened NetTypes

  /** A snapshot of the four counters. */
  datatype Counters = Counters(rxPackets: nat, rxBytes: nat, txPackets: nat, txBytes: nat)

  /** The shared, in-place updated counter block. */
  class NetStats {
    var rxPackets: nat
    var rxBytes: nat
    var txPackets: nat
    var txBytes: nat

    /** A static block: zero when the module is loaded. */
    constructor ()
      ensures Snapshot() == Counters(0, 0, 0, 0)
    {
      rxPackets, rxBytes, txPackets, txBytes := 0, 0, 0, 0;
    }

    function Snapshot(): Counters
      reads this
    {
      Counters(rxPackets, rxBytes, txPackets, txBytes)
    }
  }

  /** Effect of the receive tap on the counters for one frame. */
  function RxStep(c: Counters, protocol: nat, len: nat): Counters {
    if protocol == EthPArp then c.(rxPackets := c.rxPackets + 1, rxBytes := c.rxBytes + len)
    else c
  }

  /** Effect of the transmit redirector on the counters for one frame. */
  function TxStep(c: Counters, len: nat): Counters {
    c.(txPackets := c.txPackets + 1, txBytes := c.txBytes + len)
  }

  /** What the counters see of a frame: its EtherType and its length. */
  datatype FrameInfo = FrameInfo(protocol: nat, len: nat)

  /** The counters after the receive tap has seen `frames`, in order. */
  function RxAll(c: Counters, frames: seq<FrameInfo>): Counters
    decreases |frames|
  {
    if frames == [] then c
    else RxAll(RxStep(c, frames[0].protocol, frames[0].len), frames[1..])
  }

  /** The counters after `frames` have been submitted for transmission, in order. */
  function TxAll(c: Counters, frames: seq<FrameInfo>): Counters
    decreases |frames|
  {
    if frames == [] then c
    else TxAll(TxStep(c, frames[0].len), frames[1..])
  }

  /** Number of ARP frames in `frames`. */
  function ArpCount(frames: seq<FrameInfo>): nat
    decreases |frames|
  {
    if frames == [] then 0
    else (if frames[0].protocol == EthPArp then 1 else 0) + ArpCount(frames[1..])
  }

  /** Total length of the ARP frames in `frames`. */
  function ArpBytes(frames: seq<FrameInfo>): nat
    decreases |frames|
  {
    if frames == [] then 0
    else (if frames[0].protocol == EthPArp then frames[0].len else 0) + ArpBytes(frames[1..])
  }

  /** Total length of all frames in `frames`. */
  function TotalBytes(frames: seq<FrameInfo>): nat
    decreases |frames|
  {
    if frames == [] then 0 else frames[0].len + TotalBytes(frames[1..])
  }

  /**
   * Receiving counts exactly the ARP frames and their bytes, and never
   * touches the transmit counters.
   */
  lemma {:induction false} RxAllCountsArpOnly(c: Counters, frames: seq<FrameInfo>)
    ensures RxAll(c, frames) ==
      c.(rxPackets := c.rxPackets + ArpCount(frames), rxBytes := c.rxBytes + ArpBytes(frames))
    decreases |frames|
  {
    if frames != [] {
      RxAllCountsArpOnly(RxStep(c, frames[0].protocol, frames[0].len), frames[1..]);
    }
  }

  /**
   * Submitting N frames raises the packet counter by N and the byte
   * counter by the sum of their lengths, whatever their protocol, and
   * never touches the receive counters.
   */
  lemma {:induction false} TxAllCountsEvery(c: Counters, frames: seq<FrameInfo>)
    ensures TxAll(c, frames) ==
      c.(txPackets := c.txPackets + |frames|, txBytes := c.txBytes + TotalBytes(frames))
    decreases |frames|
  {
    if frames != [] {
      TxAllCountsEvery(TxStep(c, frames[0].len), frames[1..]);
    }
  }

  /** A stream with no ARP frame leaves every counter as it was. */
  lemma {:induction false} RxIgnoresNonArp(c: Counters, frames: seq<FrameInfo>)
    requires forall i :: 0 <= i < |frames| ==> frames[i].protocol != EthPArp
    ensures RxAll(c, frames) == c
    decreases |frames|
  {
    if frames != [] {
      RxIgnoresNonArp(c, frames[1..]);
    }
  }

  /** Counters never decrease, whatever mix of receive and transmit traffic. */
  lemma {:induction false} CountersMonotone(c: Counters, rx: seq<FrameInfo>, tx: seq<FrameInfo>)
    ensures var d := TxAll(RxAll(c, rx), tx);
      c.rxPackets <= d.rxPackets && c.rxBytes <= d.rxBytes &&
      c.txPackets <= d.txPackets && c.txBytes <= d.txBytes
  {
    RxAllCountsArpOnly(c, rx);
    TxAllCountsEvery(RxAll(c, rx), tx);
  }
}
