/**
 * Values and constants shared by the model of the virtual Ethernet
 * interface module: octets, an optional value, and the kernel constants
 * the module compares against or returns.
 */
module NetTypes {

  /** One octet of a frame or of a link-layer address. */
  newtype byte = b: int | 0 <= b < 256

  datatype Option<T> = None | Some(value: T)

  /** EtherType of ARP frames (ETH_P_ARP). */
  const EthPArp: nat := 0x0806

  /** ARP operation codes of RFC 826 (ARPOP_REQUEST, ARPOP_REPLY). */
  const ArpOpRequest: nat := 1
  const ArpOpReply: nat := 2

  /** Link types accepted for the parent device (ARPHRD_ETHER, ARPHRD_LOOPBACK). */
  const ArphrdEther: nat := 1
  const ArphrdLoopback: nat := 772

  /** Octets in one Ethernet address (ETH_ALEN). */
  const EthAlen: nat := 6
  /** Size of a device's address buffers (MAX_ADDR_LEN). */
  const MaxAddrLen: nat := 32

  /** Size of the on-stack buffer that receives the name template (`char ifstr[40]`). */
  const IfstrSize: nat := 40

  /** Error numbers the module returns, negated as the kernel does. */
  const EIo: int := 5
  const ENoMem: int := 12
  const ENoDev: int := 19
  const EInval: int := 22

  /** NETDEV_TX_OK. */
  const NetdevTxOk: int := 0

  /** `n` zero octets: what a freshly allocated device's buffers hold. */
  function Zeros(n: nat): (r: seq<byte>)
    ensures |r| == n && forall i :: 0 <= i < n ==> r[i] == 0
  {
    seq(n, _ => 0)
  }
}
