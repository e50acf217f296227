/**
 * The virtual interface module: a child Ethernet device that shadows a
 * parent device. It clones the parent's addresses at load time, taps the
 * parent's receive path to observe ARP traffic, redirects frames sent on
 * the child to the parent, and tears everything down in a fixed order.
 *
 * The host kernel is modelled by the state it exposes to the module: an
 * interface registry (name to device record), the device whose receive
 * handler is the module's tap, the frames handed to the transmit queue,
 * and a trace of lifecycle events. Choices the kernel makes that the
 * module cannot see (whether an allocation succeeds, which unit number
 * the name allocator picks) are parameters.
 */
module Virt {
  import opened NetTypes
  import opened Arp
  import opened Stats
  import opened Trace

  /** What the registry knows of a device: its link type and its two address buffers. */
  datatype DevRecord = DevRecord(devType: nat, addr: seq<byte>, broadcast: seq<byte>)

  predicate WellFormed(d: DevRecord) {
    |d.addr| == MaxAddrLen && |d.broadcast| == MaxAddrLen
  }

  /** Every registered device has full-size address buffers. */
  predicate RegistryWellFormed(registry: map<string, DevRecord>) {
    forall n :: n in registry ==> WellFormed(registry[n])
  }

  /** The kernel's `rx_handler_result_t`. */
  datatype RxHandlerResult = RxHandlerConsumed | RxHandlerAnother | RxHandlerExact | RxHandlerPass

  /** The parent must be an Ethernet or a loopback device. */
  predicate SupportedLinkType(t: nat) {
    t == ArphrdEther || t == ArphrdLoopback
  }

  // ---------------------------------------------------------------- names

  function DigitChar(d: nat): (c: char)
    requires d < 10
    ensures '0' <= c <= '9'
  {
    ('0' as int + d) as char
  }

  /** The decimal digits of `n`, as `%d` prints a non-negative number. */
  function Decimal(n: nat): (s: string)
    ensures |s| >= 1
    ensures forall i :: 0 <= i < |s| ==> '0' <= s[i] <= '9'
    ensures n < 10 <==> |s| == 1
    decreases n
  {
    if n < 10 then [DigitChar(n)] else Decimal(n / 10) + [DigitChar(n % 10)]
  }

  /** The number a string of decimal digits denotes, most significant digit first. */
  function DigitsValue(s: string): (v: nat)
    requires forall i :: 0 <= i < |s| ==> '0' <= s[i] <= '9'
  {
    if s == [] then 0 else DigitsValue(s[..|s| - 1]) * 10 + (s[|s| - 1] as int - '0' as int)
  }

  /** The digits `%d` prints for a unit denote that unit. */
  lemma {:induction false} DecimalValue(n: nat)
    ensures DigitsValue(Decimal(n)) == n
    decreases n
  {
    if n >= 10 {
      DecimalValue(n / 10);
      assert Decimal(n)[..|Decimal(n)| - 1] == Decimal(n / 10);
    }
  }

  /** Two different units give two different names. */
  lemma {:induction false} DecimalInjective(m: nat, n: nat)
    ensures Decimal(m) == Decimal(n) <==> m == n
  {
    DecimalValue(m);
    DecimalValue(n);
  }

  /**
   * The name template written into `ifstr`: the requested prefix followed
   * by `%d`. It fits the 40-byte buffer together with its terminating NUL.
   */
  function NameTemplate(prefix: string): (r: string)
    requires |prefix| + 3 <= IfstrSize
    ensures |r| == |prefix| + 2 && |r| + 1 <= IfstrSize
    ensures r[..|prefix|] == prefix && r[|prefix|..] == "%d"
  {
    prefix + "%d"
  }

  /**
   * The kernel's name allocator assigns the smallest unit `n` for which
   * `prefix` followed by `n` is not a registered name.
   */
  ghost predicate IsSmallestFreeUnit(registry: map<string, DevRecord>, prefix: string, n: nat) {
    prefix + Decimal(n) !in registry &&
    forall k: nat :: k < n ==> prefix + Decimal(k) in registry
  }

  /**
   * How `init` reads the return value of the name allocator, as written:
   * any non-zero value is taken for a failure and turned into -EIO.
   */
  function NameStepAsWritten(ret: int): (err: int)
    ensures err == 0 <==> ret == 0
    ensures err != 0 ==> err == -EIo
  {
    if ret != 0 then -EIo else 0
  }

  /**
   * The allocator returns the unit number it assigned, or a negative
   * errno. Corrected reading: only a negative value is a failure.
   */
  function NameStep(ret: int): (err: int)
    ensures err == 0 <==> ret >= 0
    ensures err != 0 ==> err == -EIo
  {
    if ret < 0 then -EIo else 0
  }

  /**
   * With `prefix0` already registered, the allocator hands out a unit of
   * at least 1, and the code as written rejects that successful
   * allocation while the corrected reading accepts it.
   */
  lemma UnitOneRejectedAsWritten(registry: map<string, DevRecord>, prefix: string, n: nat)
    requires prefix + Decimal(0) in registry
    requires IsSmallestFreeUnit(registry, prefix, n)
    ensures n >= 1
    ensures NameStepAsWritten(n) == -EIo && NameStep(n) == 0
  {
  }

  // ---------------------------------------------------------------- frames

  /**
   * A socket buffer: routing metadata that the stack may rewrite, and a
   * payload that it never changes. `Len()` is `skb->len` on each path: on
   * receive the payload starts at the network header, while at
   * `ndo_start_xmit` it starts at the Ethernet header, which `Len()` then
   * counts.
   */
  class SkBuff {
    const protocol: nat
    const data: seq<byte>
    var dev: string
    var priority: nat

    constructor (protocol: nat, data: seq<byte>, dev: string)
      ensures this.protocol == protocol && this.data == data
      ensures this.dev == dev && priority == 0
    {
      this.protocol := protocol;
      this.data := data;
      this.dev := dev;
      priority := 0;
    }

    function Len(): nat {
      |data|
    }
  }

  // ---------------------------------------------------------------- devices

  /** The sequence 0, 1, 2, 3, 4, 5 that `setup` writes as a placeholder MAC. */
  function PlaceholderMac(): (r: seq<byte>)
    ensures |r| == EthAlen
    ensures forall j :: 0 <= j < EthAlen ==> r[j] as int == j
  {
    [0, 1, 2, 3, 4, 5]
  }

  /** The part of a `net_device` the module reads or writes, with its private `parent`. */
  class NetDevice {
    var name: string
    var devType: nat
    const devAddr: array<byte>
    const broadcast: array<byte>
    var parent: Option<string>
    var queueRunning: bool
    var freed: bool

    /** Allocation: zero-filled address buffers, the name set to the template. */
    constructor (template: string)
      ensures name == template && devType == 0 && parent == None
      ensures !queueRunning && !freed
      ensures fresh(devAddr) && fresh(broadcast) && devAddr != broadcast
      ensures devAddr[..] == Zeros(MaxAddrLen) && broadcast[..] == Zeros(MaxAddrLen)
    {
      name := template;
      devType := 0;
      devAddr := new byte[MaxAddrLen](_ => 0);
      broadcast := new byte[MaxAddrLen](_ => 0);
      parent := None;
      queueRunning := false;
      freed := false;
    }

    /**
     * The setup callback: Ethernet defaults (link type, all-ones
     * broadcast), a zeroed private area, and the placeholder MAC.
     */
    method Setup()
      requires devAddr.Length == MaxAddrLen && broadcast.Length == MaxAddrLen
      requires devAddr != broadcast
      modifies this`devType, this`parent, devAddr, broadcast
      ensures devType == ArphrdEther && parent == None
      ensures devAddr[..EthAlen] == PlaceholderMac()
      ensures devAddr[EthAlen..] == old(devAddr[EthAlen..])
      ensures forall k :: 0 <= k < EthAlen ==> broadcast[k] == 0xFF
      ensures broadcast[EthAlen..] == old(broadcast[EthAlen..])
    {
      devType := ArphrdEther;
      forall k | 0 <= k < EthAlen {
        broadcast[k] := 0xFF;
      }
      parent := None;
      var j := 0;
      while j < EthAlen
        modifies devAddr
        invariant 0 <= j <= EthAlen
        invariant forall k :: 0 <= k < j ==> devAddr[k] as int == k
        invariant devAddr[EthAlen..] == old(devAddr[EthAlen..])
      {
        devAddr[j] := j as byte;
        j := j + 1;
      }
      assert devAddr[..EthAlen] == PlaceholderMac();
    }

    /** `open`: starts the transmit queue and reports success. */
    method Open() returns (r: int)
      modifies this`queueRunning
      ensures queueRunning && r == 0
    {
      queueRunning := true;
      r := 0;
    }

    /** `stop`: stops the transmit queue and reports success. */
    method Stop() returns (r: int)
      modifies this`queueRunning
      ensures !queueRunning && r == 0
    {
      queueRunning := false;
      r := 0;
    }
  }

  /** `memcpy(dst, src, ETH_ALEN)`: the first ETH_ALEN octets of `src` replace those of `dst`. */
  method Memcpy(dst: array<byte>, src: seq<byte>)
    requires dst.Length == MaxAddrLen && |src| == MaxAddrLen
    modifies dst
    ensures dst[..] == src[..EthAlen] + old(dst[EthAlen..])
  {
    forall k | 0 <= k < EthAlen {
      dst[k] := src[k];
    }
  }

  /**
   * The device's address buffers start with the first ETH_ALEN octets of
   * `p`'s and are zero after them.
   */
  ghost predicate ClonedFrom(dev: NetDevice, p: DevRecord)
    reads dev, dev.devAddr, dev.broadcast
  {
    WellFormed(p) &&
    dev.devAddr[..] == p.addr[..EthAlen] + Zeros(MaxAddrLen - EthAlen) &&
    dev.broadcast[..] == p.broadcast[..EthAlen] + Zeros(MaxAddrLen - EthAlen)
  }

  // ---------------------------------------------------------------- module

  /** The module's global state and the part of the host it touches. */
  class VirtModule {
    /** Module parameters: the parent's name and the child's name prefix. */
    const link: string
    const ifname: string
    /** The one statistics block shared by both data paths. */
    const stats: NetStats
    /** The host's interface registry. */
    var registry: map<string, DevRecord>
    /** The device this module allocated, once allocated. */
    var child: NetDevice?
    /** The device whose receive handler is this module's tap, if any. */
    var tap: Option<string>
    /** True between a successful load and the unload. */
    var loaded: bool
    /** Frames handed to the parent's transmit queue, in order. */
    var submitted: seq<SkBuff>
    /** Lifecycle events, in order. */
    var trace: seq<Event>

    ghost predicate Valid()
      reads this, child
    {
      |ifname| + 3 <= IfstrSize &&
      RegistryWellFormed(registry) &&
      (child != null ==>
        child.devAddr.Length == MaxAddrLen && child.broadcast.Length == MaxAddrLen &&
        child.devAddr != child.broadcast) &&
      LockBracketed(trace) &&
      (loaded ==> child != null && !child.freed && child.name in registry && tap == child.parent)
    }

    constructor (link: string, ifname: string, registry: map<string, DevRecord>)
      requires |ifname| + 3 <= IfstrSize
      requires RegistryWellFormed(registry)
      ensures Valid()
      ensures this.link == link && this.ifname == ifname && this.registry == registry
      ensures child == null && tap == None && !loaded && submitted == [] && trace == []
      ensures fresh(stats) && stats.Snapshot() == Counters(0, 0, 0, 0)
    {
      this.link := link;
      this.ifname := ifname;
      this.registry := registry;
      stats := new NetStats();
      child := null;
      tap := None;
      loaded := false;
      submitted := [];
      trace := [];
    }

    /**
     * The receive tap. It returns "pass" for every frame, reads the frame
     * without writing it, and counts every ARP frame whatever its opcode.
     */
    method HandleFrame(skb: SkBuff) returns (r: RxHandlerResult, obs: Observation)
      modifies stats
      ensures r == RxHandlerPass
      ensures obs == Classify(skb.protocol, skb.data)
      ensures stats.Snapshot() == RxStep(old(stats.Snapshot()), skb.protocol, skb.Len())
      ensures skb.protocol == EthPArp ==>
        stats.rxPackets == old(stats.rxPackets) + 1 &&
        stats.rxBytes == old(stats.rxBytes) + skb.Len()
      ensures skb.protocol != EthPArp ==> stats.Snapshot() == old(stats.Snapshot())
      ensures stats.txPackets == old(stats.txPackets) && stats.txBytes == old(stats.txBytes)
    {
      obs := NotArp;
      if skb.protocol == EthPArp {
        obs := Classify(skb.protocol, skb.data);
        stats.rxPackets := stats.rxPackets + 1;
        stats.rxBytes := stats.rxBytes + skb.Len();
      }
      r := RxHandlerPass;
    }

    /**
     * The transmit redirector. It counts the frame first; then, when the
     * device has a parent, it retargets the frame to the parent with
     * priority 1 and queues it once. It always reports NETDEV_TX_OK.
     */
    method StartXmit(skb: SkBuff, dev: NetDevice) returns (r: int)
      modifies stats, skb, this`submitted
      ensures r == NetdevTxOk
      ensures stats.Snapshot() == TxStep(old(stats.Snapshot()), skb.Len())
      ensures dev.parent.Some? ==>
        skb.dev == dev.parent.value && skb.priority == 1 &&
        submitted == old(submitted) + [skb]
      ensures dev.parent.None? ==>
        skb.dev == old(skb.dev) && skb.priority == old(skb.priority) &&
        submitted == old(submitted)
    {
      stats.txPackets := stats.txPackets + 1;
      stats.txBytes := stats.txBytes + skb.Len();
      if dev.parent.Some? {
        skb.dev := dev.parent.value;
        skb.priority := 1;
        submitted := submitted + [skb];
        return 0;
      }
      return NetdevTxOk;
    }

    /** `get_stats`: the one shared block, not a copy. */
    method GetStats() returns (s: NetStats)
      ensures s == stats
    {
      s := stats;
    }

    /**
     * `init`. `allocOk` is whether the device allocation succeeds and
     * `nameRet` what the name allocator returns (a unit number or a
     * negative errno); the allocator's own guarantee is required of it.
     */
    method Init(allocOk: bool, nameRet: int) returns (err: int)
      requires Valid() && child == null && tap == None && !loaded
      requires nameRet >= 0 ==> IsSmallestFreeUnit(registry, ifname, nameRet)
      modifies this
      ensures Valid()
      ensures submitted == old(submitted)
      ensures !allocOk ==> err == -ENoMem && child == null && trace == old(trace)
      ensures allocOk && link !in old(registry) ==> err == -ENoDev
      ensures allocOk && link in old(registry) && !SupportedLinkType(old(registry)[link].devType) ==>
        err == -EInval
      ensures allocOk && link in old(registry) && SupportedLinkType(old(registry)[link].devType) ==>
        err == NameStep(nameRet)
      ensures err != 0 ==> registry == old(registry) && tap == old(tap) && !loaded
      ensures err != 0 && allocOk ==>
        child != null && fresh(child) && child.freed &&
        trace == old(trace) + InitFailedEvents(NameTemplate(ifname))
      ensures err == 0 ==>
        allocOk && link in old(registry) && nameRet >= 0 && child != null && fresh(child) && loaded
      ensures err == 0 ==>
        !child.freed && child.name == ifname + Decimal(nameRet) &&
        child.parent == Some(link) && tap == Some(link)
      ensures err == 0 ==>
        ClonedFrom(child, old(registry)[link])
      ensures err == 0 ==>
        registry == old(registry)[child.name := DevRecord(ArphrdEther, child.devAddr[..], child.broadcast[..])]
      ensures err == 0 ==>
        trace == old(trace) + InitEvents(NameTemplate(ifname), child.name, link)
      ensures err == 0 ==> child.name !in old(registry) && |registry| == |old(registry)| + 1
    {
      var template := NameTemplate(ifname);
      if !allocOk {
        child := null;
        return -ENoMem;
      }
      var dev := new NetDevice(template);
      dev.Setup();
      assert dev.devAddr[EthAlen..] == Zeros(MaxAddrLen - EthAlen);
      assert dev.broadcast[EthAlen..] == Zeros(MaxAddrLen - EthAlen);
      child := dev;
      trace := trace + [AllocNetdev(template)];
      err := Attach(dev, nameRet);
      if err == 0 {
        assert trace == old(trace) + InitEvents(template, dev.name, link);
        LockBracketedAppend(old(trace), InitEvents(template, dev.name, link));
      } else {
        assert trace == old(trace) + InitFailedEvents(template);
        LockBracketedAppend(old(trace), InitFailedEvents(template));
      }
    }

    /**
     * The part of `init` after the allocation: look the parent up, check
     * its type, clone its addresses, name, register and tap, or unwind.
     */
    method Attach(dev: NetDevice, nameRet: int) returns (err: int)
      requires |ifname| + 3 <= IfstrSize && tap == None && !loaded
      requires RegistryWellFormed(registry)
      requires dev.name == NameTemplate(ifname) && dev.parent == None && !dev.freed
      requires dev.devAddr.Length == MaxAddrLen && dev.broadcast.Length == MaxAddrLen
      requires dev.devAddr != dev.broadcast
      requires dev.devAddr[EthAlen..] == Zeros(MaxAddrLen - EthAlen)
      requires dev.broadcast[EthAlen..] == Zeros(MaxAddrLen - EthAlen)
      requires nameRet >= 0 ==> IsSmallestFreeUnit(registry, ifname, nameRet)
      modifies this`registry, this`tap, this`trace, this`loaded, dev, dev.devAddr, dev.broadcast
      ensures RegistryWellFormed(registry)
      ensures dev.devType == old(dev.devType)
      ensures link !in old(registry) ==> err == -ENoDev
      ensures link in old(registry) && !SupportedLinkType(old(registry)[link].devType) ==> err == -EInval
      ensures link in old(registry) && SupportedLinkType(old(registry)[link].devType) ==>
        err == NameStep(nameRet)
      ensures err != 0 ==>
        registry == old(registry) && tap == None && !loaded && dev.freed &&
        trace == old(trace) + [FreeNetdev(NameTemplate(ifname))]
      ensures err == 0 ==> link in old(registry) && WellFormed(old(registry)[link]) && nameRet >= 0
      ensures err == 0 ==>
        var p := old(registry)[link];
        var name := ifname + Decimal(nameRet);
        !dev.freed && loaded && dev.name == name && dev.parent == Some(link) && tap == Some(link) &&
        ClonedFrom(dev, p) &&
        registry == old(registry)[name := DevRecord(dev.devType, dev.devAddr[..], dev.broadcast[..])] &&
        trace == old(trace) + [AllocName(name), RegisterNetdev(name), RtnlLock, RxHandlerRegister(link), RtnlUnlock]
    {
      dev.parent := if link in registry then Some(link) else None;
      err := 0;
      if dev.parent.None? {
        err := -ENoDev;
      } else if !SupportedLinkType(registry[link].devType) {
        err := -EInval;
      } else {
        var p := registry[link];
        Memcpy(dev.devAddr, p.addr);
        Memcpy(dev.broadcast, p.broadcast);
        err := NameStep(nameRet);
        if err == 0 {
          dev.name := ifname + Decimal(nameRet);
          trace := trace + [AllocName(dev.name)];
          RegisterChild(dev);
          return;
        }
      }
      UnwindInit(dev);
    }

    /**
     * The last steps of a successful `init`: register the child, then
     * install the tap on the parent between taking and releasing the lock.
     */
    method RegisterChild(dev: NetDevice)
      requires dev.parent == Some(link) && dev.name !in registry
      requires dev.devAddr.Length == MaxAddrLen && dev.broadcast.Length == MaxAddrLen
      modifies this`registry, this`tap, this`trace, this`loaded
      ensures registry == old(registry)[dev.name := DevRecord(dev.devType, dev.devAddr[..], dev.broadcast[..])]
      ensures tap == Some(link) && loaded
      ensures trace == old(trace) + [RegisterNetdev(dev.name), RtnlLock, RxHandlerRegister(link), RtnlUnlock]
    {
      var name := dev.name;
      registry := registry[name := DevRecord(dev.devType, dev.devAddr[..], dev.broadcast[..])];
      trace := trace + [RegisterNetdev(name)];
      trace := trace + [RtnlLock];
      tap := Some(link);
      trace := trace + [RxHandlerRegister(link)];
      trace := trace + [RtnlUnlock];
      loaded := true;
    }

    /** The `err:` label of `init`: free the child and record it. */
    method UnwindInit(dev: NetDevice)
      modifies dev`freed, this`trace
      ensures dev.freed
      ensures trace == old(trace) + [FreeNetdev(dev.name)]
    {
      dev.freed := true;
      trace := trace + [FreeNetdev(dev.name)];
    }

    /**
     * `exit`: removes the receive tap under the lock (when there is a
     * parent), then unregisters and frees the child.
     */
    method Exit()
      requires Valid() && loaded
      modifies this, child
      ensures Valid()
      ensures child == old(child) && child.freed && !loaded
      ensures registry == old(registry) - {old(child.name)}
      ensures |registry| == |old(registry)| - 1
      ensures tap == None
      ensures trace == old(trace) + ExitEvents(old(child.parent), old(child.name))
      ensures submitted == old(submitted)
    {
      var dev := child;
      var name, parent := dev.name, dev.parent;
      if parent.Some? {
        UnregisterTap(parent.value);
      }
      UnregisterChild(dev);
      loaded := false;
      assert trace == old(trace) + ExitEvents(parent, name);
      LockBracketedAppend(old(trace), ExitEvents(parent, name));
    }

    /** Removal of the tap from `parent`, between taking and releasing the lock. */
    method UnregisterTap(parent: string)
      modifies this`tap, this`trace
      ensures tap == None
      ensures trace == old(trace) + [RtnlLock, RxHandlerUnregister(parent), RtnlUnlock]
    {
      trace := trace + [RtnlLock];
      tap := None;
      trace := trace + [RxHandlerUnregister(parent)];
      trace := trace + [RtnlUnlock];
    }

    /** `unregister_netdev` then `free_netdev` on the child. */
    method UnregisterChild(dev: NetDevice)
      modifies this`registry, this`trace, dev`freed
      ensures dev.freed
      ensures registry == old(registry) - {dev.name}
      ensures trace == old(trace) + [UnregisterNetdev(dev.name), FreeNetdev(dev.name)]
    {
      var name := dev.name;
      registry := registry - {name};
      trace := trace + [UnregisterNetdev(name)];
      dev.freed := true;
      trace := trace + [FreeNetdev(name)];
    }
  }
}
