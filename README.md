# virt1: a virtual Ethernet interface that shadows a parent device

This Dafny project models the Linux kernel module `virt1.c`. The module
creates a child network device (named from the prefix `ifname`, default
`virt`) on top of an existing parent device (named by `link`, default
`eth0`). It has three parts:

- **Load and unload.** At load (`init`) it allocates the child, clones the
  parent's hardware and broadcast addresses onto it, names it, registers it,
  and installs a receive handler on the parent under the rtnl lock. At unload
  (`exit`) it removes that handler under the lock, then unregisters and frees
  the child.
- **Receive tap.** The handler (`handle_frame`) only observes the parent's
  incoming frames. It counts ARP frames and decodes the four addresses of an
  ARP request or reply. It always lets the frame pass unchanged.
- **Transmit redirector.** A frame sent on the child (`start_xmit`) is
  counted. Then, if there is a parent, it is retargeted to the parent with
  priority 1 and queued.

Both data paths update one shared statistics block (`stats`), and
`get_stats` returns that block.

Layout:

- `net_types.dfy` (`NetTypes`): octets, `Option`, and the kernel constants the module uses (ETH_P_ARP, ARPOP_*, ARPHRD_*, ETH_ALEN, MAX_ADDR_LEN, the errno values, NETDEV_TX_OK).
- `arp.dfy` (`Arp`): the pure part of the receive tap. It reads the ARP operation code and the address block that follows the 8-byte fixed header, in the layout of RFC 826 with hln = 6 and pln = 4.
- `stats.dfy` (`Stats`): the statistics block as a class with four counters. It also holds the per-frame effect of each data path as a function on counter snapshots, and lemmas about sequences of frames.
- `trace.dfy` (`Trace`): the lifecycle events the host can observe, and the event sequences of a load and an unload, with their ordering properties.
- `virt.dfy` (`Virt`): the socket buffer (`SkBuff`: mutable `dev` and `priority`, an immutable payload), the device (`NetDevice`, with its `setup`, `open` and `stop`), and the module state (`VirtModule`: the host's registry, `child`, the tap, the transmit queue, the statistics and the trace) with `handle_frame`, `start_xmit`, `get_stats`, `init` and `exit`.

The host kernel appears only through the state the module can see:

- The interface registry is a map from name to (link type, address buffer, broadcast buffer).
- The device whose `rx_handler` is the tap is an optional name.
- `dev_queue_xmit` appends the frame to `submitted`.
- `rtnl_lock` and `rtnl_unlock` are trace events.
- Two outcomes are parameters of `Init`: whether `alloc_netdev` succeeds (`allocOk`), and what `dev_alloc_name` returns (`nameRet`).
- `Init` requires what the kernel's name allocator guarantees: a non-negative return is the smallest unit whose name `ifname` + unit is not yet registered.

Two details of `init` in virt1.c shape the outcomes the model reports:

- The child is allocated (virt1.c:105) before the parent is looked up (virt1.c:110), so -ENOMEM is reported before -ENODEV.
- The return values of `register_netdev` and `netdev_rx_handler_register` are ignored (virt1.c:126, 128), so neither can make `init` fail.

## Model

| member | source | states |
|---|---|---|
| `Arp.Classify` | virt1.c:26-44 | A frame is NotArp exactly when its EtherType is not ETH_P_ARP. Its addresses are decoded exactly when it is ARP, its opcode is REQUEST or REPLY, and it holds the 8 + 20 octets the source reads. The decoded addresses re-encode to octets 8..27. Any other ARP opcode yields ArpOther carrying that opcode. |
| `Arp.Opcode` | virt1.c:28-29 | ar_op is read big-endian from octets 6-7 of the fixed header and is below 2^16. |
| `Arp.DecodeAddrs` | virt1.c:30-35 | The block after the fixed header gives a 6-octet sender MAC, a 4-octet sender IP, a 6-octet target MAC and a 4-octet target IP. |
| `Arp.EncodeAddrs` | virt1.c:30-35 | The four addresses laid out in wire order take exactly 20 octets. |
| `Arp.DecodeEncode` | virt1.c:30-35 | Decoding the wire layout of four well-sized addresses, followed by any further octets, gives back the same addresses. |
| `Arp.EncodeDecode` | virt1.c:30-35 | Re-encoding what was decoded gives back the first 20 octets of the block. |
| `Arp.ReplyAndRequestDecodeAlike` | virt1.c:29-43 | A reply and a request with the same address block decode to the same addresses: both branches use the same offsets. |
| `Arp.LoggedSenderMacAsWritten` | virt1.c:31 | The sender MAC is printed in reverse octet order: octet i of the printed address is octet 5 - i of the frame. |
| `Arp.SenderMacLoggedReversed` | virt1.c:31-34 | For sender 00:11:22:33:44:55 the printed address is 55:44:33:22:11:00, which differs from the decoded sender MAC. |
| `Stats.NetStats.constructor` | virt1.c:18 | The static statistics block starts with all four counters at zero. |
| `Stats.RxAllCountsArpOnly` | virt1.c:45-46 | Over any stream of received frames, rx_packets rises by the number of ARP frames and rx_bytes by their total length. The tx counters do not change. |
| `Stats.RxIgnoresNonArp` | virt1.c:26-47 | A stream with no ARP frame leaves all four counters unchanged. |
| `Stats.TxAllCountsEvery` | virt1.c:65-66 | Submitting N frames raises tx_packets by N and tx_bytes by the sum of their lengths, whatever their protocol. The rx counters do not change. |
| `Stats.CountersMonotone` | virt1.c:45-66 | No mix of receive and transmit traffic decreases any counter. |
| `Trace.LockBracketedAppend` | virt1.c:127-129 | "Every receive-handler change sits directly between an rtnl lock and an unlock" survives concatenation of event logs. |
| `Trace.InitEvents` | virt1.c:105-129 | A successful load starts with the allocation, registers the child before installing the handler on the parent, installs it only between lock and unlock, and neither unregisters nor frees anything. |
| `Trace.InitFailedEvents` | virt1.c:134-136 | A failed load after allocation ends by freeing the device, and never registers it or touches a receive handler. |
| `Trace.ExitEvents` | virt1.c:139-150 | An unload removes the parent's handler (exactly when there is a parent), between lock and unlock and strictly before unregistering and freeing the child. It unregisters before it frees and ends with the free. |
| `Virt.Decimal` | virt1.c:122 | The unit number that `%d` prints is a non-empty string of decimal digits, one digit long exactly for units below 10. |
| `Virt.DecimalValue` | virt1.c:122 | The digits printed for a unit denote that unit, read most significant digit first. |
| `Virt.DecimalInjective` | virt1.c:122 | Two units give the same printed digits exactly when they are equal, so each unit gives its own name. |
| `Virt.NameTemplate` | virt1.c:103-104 | The template is `ifname` followed by `%d`, and it fits the 40-byte `ifstr` buffer with its NUL. |
| `Virt.NameStepAsWritten` | virt1.c:122-125 | As written, `init` reports -EIO exactly when the name allocator returns anything other than 0. |
| `Virt.NameStep` | virt1.c:122-125 | Corrected: `init` reports -EIO exactly when the name allocator returns a negative errno. |
| `Virt.UnitOneRejectedAsWritten` | virt1.c:122-125 | When `ifname`0 is already registered, the allocator assigns a unit of at least 1. The code as written rejects that successful allocation, and the corrected reading accepts it. |
| `Virt.PlaceholderMac` | virt1.c:96-97 | The placeholder MAC that `setup` writes is 0, 1, 2, 3, 4, 5. |
| `Virt.Memcpy` | virt1.c:120-121 | Copying ETH_ALEN octets replaces the first six octets of the buffer with the source's and leaves the rest of it as it was. |
| `Virt.NetDevice.constructor` | virt1.c:105 | A new device has the template as its name and zero-filled address buffers (two distinct arrays). It has no parent and is neither running nor freed. |
| `Virt.NetDevice.Setup` | virt1.c:91-98 | After setup the device is an Ethernet device with an all-ones broadcast prefix and a cleared private parent. The first six octets of its address are the placeholder 0..5, and the remaining octets are unchanged. |
| `Virt.NetDevice.Open` | virt1.c:51-55 | `open` starts the transmit queue and returns 0. |
| `Virt.NetDevice.Stop` | virt1.c:57-61 | `stop` stops the transmit queue and returns 0. |
| `Virt.VirtModule.constructor` | virt1.c:10-18 | The module starts with its two parameters, no child, no tap, an empty queue and trace, and zeroed statistics. |
| `Virt.VirtModule.HandleFrame` | virt1.c:24-49 | The handler returns RX_HANDLER_PASS for every frame and cannot write to the frame. It returns the classification of the frame. An ARP frame raises rx_packets by 1 and rx_bytes by its length, whatever its opcode. Any other frame leaves all counters unchanged. |
| `Virt.VirtModule.StartXmit` | virt1.c:63-75 | tx_packets rises by 1 and tx_bytes by the frame's length on both branches. With a parent, the frame's `dev` becomes the parent, its `priority` becomes 1, and it is queued exactly once. Without a parent the frame and the queue are untouched. The result is always NETDEV_TX_OK. |
| `Virt.VirtModule.GetStats` | virt1.c:77-79 | `get_stats` returns the one shared statistics block itself. |
| `Virt.VirtModule.Init` | virt1.c:100-137 | Allocation failure gives -ENOMEM with nothing else done. After allocation: a missing parent gives -ENODEV, a parent that is neither ARPHRD_ETHER nor ARPHRD_LOOPBACK gives -EINVAL, and a failed name allocation gives -EIO, read through the corrected test `NameStep` (a negative return only; see Findings). In each of these failures the child is freed, the registry is unchanged and no tap is installed. On success the child's address and broadcast buffers are the parent's first ETH_ALEN octets followed by zeros, and its name is `ifname` followed by the unit. Exactly that one device is added to the registry, the tap is on the parent, and the trace is the load sequence. The lock discipline invariant is kept. |
| `Virt.VirtModule.Attach` | virt1.c:109-129 | The steps after allocation, each with its outcome as above, the name allocator's return read through the corrected test `NameStep`. The registry stays well formed. |
| `Virt.VirtModule.RegisterChild` | virt1.c:126-129 | The child is registered, then the tap is installed on the parent between lock and unlock. |
| `Virt.VirtModule.UnwindInit` | virt1.c:134-136 | The `err:` label frees the child and records it. |
| `Virt.VirtModule.Exit` | virt1.c:139-150 | The tap is removed, the child alone leaves the registry (which shrinks by one) and is freed, and the trace grows by exactly the unload sequence. |
| `Virt.VirtModule.UnregisterTap` | virt1.c:141-146 | The handler is removed from the parent between lock and unlock. |
| `Virt.VirtModule.UnregisterChild` | virt1.c:147-148 | The child is removed from the registry and then freed. |

## Left out

- Logging (`printk`, `LOG`, `ERR`) is left out. `HandleFrame` returns the decoded ARP fields instead of printing them. Only the printed order of the sender MAC is modelled, as a finding.
- Module parameter parsing is left out. `link` and `ifname` are constructor arguments, and `|ifname| + 3 <= 40` is required so that the template fits `ifstr`.
- Init: the kernel's IFNAMSIZ limit of 16 bytes on device names is not modelled. The source never checks it: for a prefix of 14 or more bytes `alloc_netdev` hits a `BUG_ON`, and `dev_alloc_name` formats into a 16-byte buffer. The model only requires the template to fit `ifstr`, so for such a prefix it reports a successful load where the kernel would crash.
- Concurrency is left out. The rtnl lock appears only as trace events, and the counters are plain sequential fields. Counter updates racing with each other are not modelled.
- The statistics counters are `unsigned long` in the source, so they can wrap. The model's counters are unbounded naturals, so wrap-around is not modelled.
- Byte-order conversion (`htons`) is left out. ar_op is read big-endian from the frame, which is what comparing it with `htons(ARPOP_*)` amounts to.
- The source never checks that an ARP frame is long enough before reading ar_op and the 20 address octets. It reads whatever memory follows. The model cannot read past the frame, so it reports `ArpTruncated` instead. The counters are still updated for such frames, as in the source.
- Kernel internals are abstracted:
  - `alloc_netdev`, `ether_setup` and `free_netdev` are modelled only through the fields the module reads: name, link type, address buffers and the private parent. The `'d'` name-assignment argument and the `net_device_ops` table are not modelled. The ops table's four functions are the methods of this model.
  - `__dev_get_by_name` is a map lookup. The parent is referenced by name, without a reference count.
  - `dev_alloc_name`'s scan of existing names is replaced by its guarantee (the smallest free unit), and its other errors (an invalid template, no free unit) by a negative `nameRet`.
  - `register_netdev` is modelled as adding the child's record to the registry, and `netdev_rx_handler_register` as setting the tap. Their failures are not modelled, because the source ignores them. In particular, the model assumes the parent has no other receive handler.
- After a failed `init` the source leaves the global `child` pointing at the freed device. The model keeps that reference and marks the device freed.

## Findings

| source | as written | input that shows it | evidently intended | confidence | as-written member | corrected member |
|---|---|---|---|---|---|---|
| virt1.c:122-125 | `if ((err = dev_alloc_name(...)))` treats every non-zero return as a failure, but the allocator returns the unit number it assigned | a registry that already holds `virt0`: the allocator names the child `virt1` and returns 1, so `init` frees the child and returns -EIO | only a negative return is a failure, so the child is loaded as `virt1` | high; not executed | `Virt.NameStepAsWritten` (shown by `Virt.UnitOneRejectedAsWritten`) | `Virt.NameStep`, used by `Virt.VirtModule.Attach` |
| virt1.c:31 | the sender MAC is printed from octet 5 down to octet 0, while the target MAC (line 34) is printed in wire order | a reply from 00:11:22:33:44:55 is logged with sender MAC 55:44:33:22:11:00 | the sender MAC printed in wire order, like the target MAC | medium; not executed | `Arp.LoggedSenderMacAsWritten` (shown by `Arp.SenderMacLoggedReversed`) | `Arp.DecodeAddrs`, proved by `Arp.DecodeEncode` and used by `Arp.Classify` |
