# Verification of the STM32F0 Ethernet firmware

A Dafny model of the firmware's hardest parts, with proofs. `dafny verify dfyconfig.toml` checks all of it.

**The ENC28J60 driver and the chip it drives.** `Chip.dfy` is the chip as it is seen over SPI: 8 KB of SRAM, four
banks of control registers, the buffered ERXRDPT, EPKTCNT, ERDPT and EWRPT with auto-increment, and the receive and
transmit hardware (Microchip DS39662, sections 3.2, 4.2, 7.1 and 7.2). `Driver.dfy` is the driver, function by
function, as a class that changes its static `rxPtr` and the chip. The chip runs on by itself: before *every* command
and every byte of a buffer access it goes through an arbitrary list of hardware events (`env`), down to single bytes of
an arriving frame, and the clock (`clock`) is arbitrary too. What is proved therefore holds for every interleaving. The
class has two ghost fields: `taken`, the number of packets that the driver has drained, and `bus`, all that has happened
on the bus since a given moment. `Ring.log` and `Chip.sent` record what the hardware has accepted and sent.

The main results about it:

* `RxHardware` and `RxSafety`: the hardware never changes a byte between the driver's read position and its own write
  pointer, and `DriverSteps` carries that through every single write of a release. The one case in which this breaks
  is `nextPtr == RXSTART`, where the driver writes 0xFFFF instead of RXEND to ERXRDPT: `SafeExactly` proves that this
  case is exactly the unsafe one, by constructing arrivals that overwrite an unread byte (`Overrun`: of frames of at
  most 1019 bytes, as long as no more than 250 packets are waiting). `StartIsReached` leads there from Init, by three
  frames and three runs of PacketReceive's own accesses.
* `Unguarded` and `Runs`: what happens then. `MootExactly`: the hardware does, event by event, what it would do with
  ERXRDPT at RXEND, if and only if all that is unread or arriving fits in the ring at every moment. `Runs` follows
  PacketReceive and SendPacket access by access, with the hardware running before each: on a ring that is held (as it
  is when sound, or would be with ERXRDPT at RXEND) it stays held at every moment of the call if and only if
  everything fits whenever ERXRDPT is outside; PacketReceive then delivers the oldest frame all the same, and a
  release elsewhere than at RXSTART makes the ring sound again (`HeldFree`).
* `PollLoop.Run`: over a whole run from the reset on, the driver makes one call of SendPacket for each chain that the
  stack hands over at start-up, and in each round one of PacketReceive and then one of SendPacket for each chain, in
  this order. The chip stays in operation, with RXEN set and the MAC, address, MII and filter registers as Init has
  written them. The ring is held at every moment if and only if everything fits whenever ERXRDPT is outside, and that
  is always so while no drained packet is followed by one at RXSTART. Then frames received plus frames still in the
  buffer are the frames accepted, in order and each as far as it is handed on, and following next pointers EPKTCNT
  times from `rxPtr` reaches ERXWRPT. Without any condition, what goes out on the wire is, in order and each at most
  once, among the payloads given to the driver; and rounds without arrivals bring EPKTCNT down one by one.
* `Netif` and `SendPacket`: from a pbuf chain to the transmit buffer and the wire, while reception goes on, wherever
  ERXRDPT points.
* `Banks` and `Programs`: whatever bank is selected, PacketReceive and SendPacket do on the chip, step by step, what
  the same steps do on a flat file of named registers. `Ticks` and `AwaitClear`: the waits end, also when the 32-bit
  tick wraps.

**The MPU loaders.** `MpuV8.dfy` and `MpuV7.dfy` prove that pushing a table through the window of alias registers
does what setting the regions one at a time does. The rules for the aliases are those of the Armv8-M Architecture
Reference Manual, section D1.2, and the Armv7-M Architecture Reference Manual, section B3.5.

**Priorities and bit loops.** `Nvic.dfy` (byte lanes from `Lanes.dfy`, any number of priority bits from 1 to 8) and
`BitLoops.dfy` (the software RBIT and CLZ). C's bit operators are functions on natural numbers, in `Bits.dfy`.

**The heap.** `Sbrk.dfy`.

Where code and comments of the repository disagree, the code is modelled. Init says that it sets up a receive filter
with CRC check, but writes 0 to ERXFCON, which accepts everything; so nothing is assumed about accepted frames, and
`DeliveredExactly` says what happens to frames shorter than their FCS. Init takes addresses 0x00 to 0x03 of bank 3 for
MAADR3 to MAADR6, where the chip has MAADR5, MAADR6, MAADR3 and MAADR4; `AddressExactly` says what address that makes.
Init never writes ERXRDPT; so it comes up at `resetRdpt`, any address. If that lies in the ring, `FirstFits` says which
frames can be accepted before the first release: those that end, with header and pad, below it. Init does not reset
`rxPtr` either, so a call leaves a sound chip exactly if `rxPtr` is RXSTART and `resetRdpt` lies in the ring.

## Model

| member | source | states |
|---|---|---|
| Enc28Driver.Enc28j60.WriteOp | ethernet_ping/ENC28J60/Src/enc28j60.c:28-36 | the chip, after whatever it did meanwhile, executes the command whose opcode and five address bits are those given |
| Enc28Driver.Enc28j60.ReadOp | ethernet_ping/ENC28J60/Src/enc28j60.c:46-60 | the reply is the addressed register at that moment; reading changes nothing |
| Enc28Driver.Enc28j60.SetBank | ethernet_ping/ENC28J60/Src/enc28j60.c:68-74 | from any bank the wanted one is selected; all other ECON1 bits, hence RXEN, survive, except a TXRTS that the chip itself clears |
| Enc28Driver.Enc28j60.ReadReg | ethernet_ping/ENC28J60/Src/enc28j60.c:81-84 | reads the named register of the selected bank |
| Enc28Driver.Enc28j60.WriteReg | ethernet_ping/ENC28J60/Src/enc28j60.c:91-94 | writes the named register of the selected bank and leaves the bank |
| Enc28Banks.BanksAreFlat | ethernet_ping/ENC28J60/Src/enc28j60.c:68-94 | from any starting bank, any run of accesses in which banked registers are used after a bank selection and the bank bits only for that, with any hardware events in between, shows the driver the same bytes and leaves the same chip as on a flat file of named registers |
| Enc28Banks.FlatToo | ethernet_ping/ENC28J60/Src/enc28j60.c:28-94 | so does what the driver has done on the bus, if it was such a run; that it was is proved for PacketReceive and SendPacket |
| Enc28Banks.AccessStep | ethernet_ping/ENC28J60/Src/enc28j60.c:28-94 | each single access does so, and keeps the bank that the accesses so far have selected |
| Enc28Banks.RunHwBlind | ethernet_ping/ENC28J60/Src/enc28j60.c:68-74 | no run of the hardware depends on the bank selected, or changes it |
| Enc28Banks.BankSelected | ethernet_ping/ENC28J60/Src/enc28j60.c:68-74 | the two writes of a bank selection, with the chip running before each, select the bank and disturb nothing else |
| Enc28Driver.Enc28j60.ReadPHY | ethernet_ping/ENC28J60/Src/enc28j60.c:104-131 | the wait ends, after a bounded number of polls, with MISTAT.BUSY read clear or more than 100 ticks elapsed; the PHY address is set, MICMD set meanwhile and clear again, and no other register has changed; the value is the reply for MIRDL and, above it, the reply for MIRDH, both read with MICMD clear |
| Enc28Driver.Enc28j60.WritePHY | ethernet_ping/ENC28J60/Src/enc28j60.c:141-164 | the address and both data bytes are in the MII registers, no other register has changed; ends with MISTAT.BUSY read clear or more than 100 ticks elapsed, after a bounded number of polls, also when the tick wraps |
| Enc28Driver.Enc28j60.AwaitClear | ethernet_ping/ENC28J60/Src/enc28j60.c:156-163 | the wait loop: reads on while the bits are shown set, and ends with them read clear or more than the limit elapsed in real time, after a bounded number of polls, in spite of 32-bit ticks |
| Ticks.SinceIsElapsed | ethernet_ping/ENC28J60/Src/enc28j60.c:161-161 | the 32-bit tick difference is the elapsed time modulo the tick range, also across a wrap |
| Ticks.SinceInTurn | ethernet_ping/ENC28J60/Src/enc28j60.c:161-161 | it never shows more than the time elapsed, and within one turn of the tick exactly that less the turns before |
| Ticks.StillWaiting | ethernet_ping/ENC28J60/Src/enc28j60.c:114-120 | a wait within its limit has seen at most a fixed number of commands |
| Enc28Driver.Enc28j60.Init | ethernet_ping/ENC28J60/Src/enc28j60.c:178-232 | the chip then receives into an empty ring from 0x0000 to 0x0BFF, and the ring is sound if and only if rxPtr is at its start and ERXRDPT comes up inside; MAC, address, MII and filter registers hold the values written |
| Enc28Driver.AddressExactly | ethernet_ping/ENC28J60/Src/enc28j60.c:213-220 | the station address that Init leaves in the chip is the one meant exactly when its middle and its last pair of octets are alike |
| Enc28Driver.FirmwareAddress | ethernet_ping/ENC28J60/Src/enc_netif.c:26-26 | with the address of this firmware they are not alike: the chip has 02:00:22:33:00:11 |
| DriverSteps.BoundsWritten | ethernet_ping/ENC28J60/Src/enc28j60.c:192-196 | the four boundary writes give the ring 0x0000 to 0x0BFF with ERXWRPT at its start |
| DriverSteps.Enabled | ethernet_ping/ENC28J60/Src/enc28j60.c:229-231 | setting RXEN on the chip that has been set up starts an empty reception, sound if and only if the read position is RXSTART and ERXRDPT lies in the ring |
| Enc28Driver.Enc28j60.ReadByte | ethernet_ping/ENC28J60/Src/enc28j60.c:246-246 | one byte clocked out is the unread byte ERDPT stands at, and ERDPT goes round with the ring |
| Enc28Driver.Enc28j60.ReadBuffer | ethernet_ping/ENC28J60/Src/enc28j60.c:241-248 | the bytes read are those of the unread packets from ERDPT on, across RXEND and whatever arrives meanwhile; nothing beyond len is touched |
| Enc28Driver.Enc28j60.FetchHeader | ethernet_ping/ENC28J60/Src/enc28j60.c:289-298 | the header of the oldest packet yields where the next one begins and how long the frame is |
| DriverSteps.HeaderDecodes | ethernet_ping/ENC28J60/Src/enc28j60.c:297-298 | the decoded fields invert what the hardware wrote |
| Enc28Driver.Enc28j60.Release | ethernet_ping/ENC28J60/Src/enc28j60.c:307-314 | the packet is given back: ERXRDPT right behind the new read position, one packet less counted, the rest intact |
| DriverSteps.ReleaseKeeps | ethernet_ping/ENC28J60/Src/enc28j60.c:308-314 | between rxPtr, ERXRDPTL, ERXRDPTH and PKTDEC, with the hardware running before each write, the ring stays sound |
| DriverSteps.TakeKeeps | ethernet_ping/ENC28J60/Src/enc28j60.c:308-308 | moving the read position to the next pointer leaves exactly the other packets unread |
| DriverSteps.FreePointer | ethernet_ping/ENC28J60/Src/enc28j60.c:310-311 | the value written to ERXRDPT lies in the ring exactly when nextPtr is not RXSTART |
| DriverSteps.CountsOff | ethernet_ping/ENC28J60/Src/enc28j60.c:314-314 | PKTDEC counts one packet off and keeps AUTOINC and every other bit and register |
| Enc28Driver.Enc28j60.PacketReceive | ethernet_ping/ENC28J60/Src/enc28j60.c:281-317 | drains the oldest packet if there is one: its frame without FCS, cut to maxlen, rxPtr at the next header, all other space free, under every interleaving; the ring is held at every moment of the call exactly if everything fits whenever ERXRDPT is outside, which suffices for all this; on the bus it makes exactly the accesses of ReceiveSteps, uses the bytes it is shown, leaves the transmitter alone, and acts as on a flat file of named registers |
| Enc28Runs.ReceiveMoments | ethernet_ping/ENC28J60/Src/enc28j60.c:281-317 | at every moment of a run of PacketReceive, after each access and each batch of hardware events, the bytes shown so far are those of the oldest packet, and the ring is held from the old position with the old count until ERXRDPTH is written, and from the new ones from then on |
| Enc28Runs.ReceiveTakes | ethernet_ping/ENC28J60/Src/enc28j60.c:281-317 | such a run delivers the oldest packet, as long as ERXRDPT stays inside or everything fits |
| Enc28Runs.HeldIsRoomy | ethernet_ping/ENC28J60/Src/enc28j60.c:307-314 | the other way round: if the ring is held at every moment of a run, everything has fitted whenever ERXRDPT was outside |
| Enc28Runs.ReceiveQuiet | ethernet_ping/ENC28J60/Src/enc28j60.c:281-317 | PacketReceive leaves the transmit buffer, its pointers and TXRTS to the hardware |
| Enc28Unguarded.MootExactly | ethernet_ping/ENC28J60/Src/enc28j60.c:307-311 | behind a release at RXSTART the hardware does at every moment what it would do with ERXRDPT at RXEND, if and only if all that is unread or arriving fits in the ring throughout; then nothing is lost |
| Enc28Unguarded.HoldingNeedsRoom | ethernet_ping/ENC28J60/Src/enc28j60.c:307-311 | a ring that is held all along a run of the hardware has had room all along |
| Enc28Unguarded.HeldFree | ethernet_ping/ENC28J60/Src/enc28j60.c:307-311 | freeing the oldest packet keeps the ring held, wherever the next one starts, and brings ERXRDPT back inside if and only if that is not RXSTART |
| Enc28Programs.ReceivedOnBus | ethernet_ping/ENC28J60/Src/enc28j60.c:281-317 | the parts of PacketReceive make up its accesses, and the same run on named registers shows the same count, header and frame |
| Enc28Driver.DeliveredExactly | ethernet_ping/ENC28J60/Src/enc28j60.c:301-304 | for every buffer length, the length is that of the frame without FCS cut to maxlen exactly for frames of at least four bytes; for a shorter one it is 65532 more than the frame's, cut to maxlen |
| RxRing.StartKeeps | ethernet_ping/ENC28J60/Src/enc28j60.c:307-311 | a frame that begins to arrive finds six free bytes or is not taken |
| RxRing.ByteKeeps | ethernet_ping/ENC28J60/Src/enc28j60.c:307-311 | an arriving byte leaves the unread bytes and joins its frame |
| RxRing.EndKeeps | ethernet_ping/ENC28J60/Src/enc28j60.c:288-298 | a finished frame is appended behind the unread packets with its header and pad, or dropped |
| RxRing.ImageAppend | ethernet_ping/ENC28J60/Src/enc28j60.c:288-298 | the byte layout of a queue of packets extends by one packet, also round the end of the ring |
| RxHardware.HwKeeps | ethernet_ping/ENC28J60/Src/enc28j60.c:307-311 | every hardware event, receiving or transmitting, keeps the ring sound |
| RxHardware.HwOperates | ethernet_ping/ENC28J60/Src/enc28j60.c:229-231 | whatever the hardware does and wherever ERXRDPT points, RXEN and AUTOINC stay set, the receiver writes only in the ring, and the transmit area changes only as a transmission changes it |
| RxHardware.RunIdles | ethernet_ping/ENC28J60/Src/enc28j60.c:281-317 | so does any run of them; registers, bank, counter and transmit buffer change only as the hardware may change them |
| RxHardware.UnreadKept | ethernet_ping/ENC28J60/Src/enc28j60.c:307-311 | no run of the hardware changes a byte between the read position and ERXWRPT |
| RxSafety.SafeExactly | ethernet_ping/ENC28J60/Src/enc28j60.c:310-311 | after the ERXRDPTH write every later run is safe if and only if nextPtr is not RXSTART |
| RxSafety.Overrun | ethernet_ping/ENC28J60/Src/enc28j60.c:310-311 | with ERXRDPT outside the ring there is a run, of frames of at most 1019 bytes, that overwrites an unread byte |
| RxSafety.StartIsReached | ethernet_ping/ENC28J60/Src/enc28j60.c:281-317 | from a chip as Init leaves it, three frames of 1018 bytes, each taken by the accesses that PacketReceive makes, lead to a release at RXSTART after which an unread byte can be overwritten |
| RxSafety.FreshStarts | ethernet_ping/ENC28J60/Src/enc28j60.c:192-196 | there is such a chip for every ERXRDPT in the ring |
| RxSafety.NothingFits | ethernet_ping/ENC28J60/Src/enc28j60.c:192-196 | no frame is ever accepted before the first release if and only if ERXRDPT comes up below 6 |
| RxSafety.FirstFits | ethernet_ping/ENC28J60/Src/enc28j60.c:192-196 | a frame of n bytes can be accepted before the first release if and only if header, frame and pad fit below ERXRDPT |
| RxSafety.Framing | ethernet_ping/ENC28J60/Src/enc28j60.c:288-308 | following next pointers EPKTCNT times from rxPtr reaches ERXWRPT, also with ERXRDPT outside as long as the ring is held |
| RxSafety.FollowPackets | ethernet_ping/ENC28J60/Src/enc28j60.c:288-308 | the chain of next pointers through a queue of packets ends behind its last |
| Enc28Driver.Enc28j60.LoadFrame | ethernet_ping/ENC28J60/Src/enc28j60.c:334-359 | wherever ERXRDPT points: control byte and frame lie between TXSTART and ETXND and no transmission is in progress; reception is undisturbed |
| Enc28Driver.Enc28j60.FillTx | ethernet_ping/ENC28J60/Src/enc28j60.c:347-354 | wherever ERXRDPT points: the bytes written are the zero control byte and the frame, in order, and nothing else |
| Enc28Driver.Enc28j60.SendPacket | ethernet_ping/ENC28J60/Src/enc28j60.c:332-371 | wherever ERXRDPT points: TXRTS is set on the loaded buffer and only this frame goes out; ends with TXRTS clear or more than 200 ticks elapsed; a sound receive ring stays sound, and one that is held stays so at every moment exactly if everything fits; the driver writes no buffer byte below TXSTART; on the bus it makes exactly the accesses of SendSteps and acts as on a flat file of named registers |
| Enc28Runs.SendWritesAbove | ethernet_ping/ENC28J60/Src/enc28j60.c:332-371 | on any chip, whatever the state of the ring, EWRPT is at TXSTART or above at every buffer write of a run of SendPacket |
| Enc28Runs.SendThroughout | ethernet_ping/ENC28J60/Src/enc28j60.c:332-371 | at every moment of a run of SendPacket the receive ring is held, as long as ERXRDPT is inside or everything fits |
| Enc28Programs.SentOnBus | ethernet_ping/ENC28J60/Src/enc28j60.c:332-371 | the parts of SendPacket make up its accesses, and the same run on named registers shows the same polls |
| DriverSteps.Transmitted | ethernet_ping/ENC28J60/Src/enc28j60.c:361-371 | while and after it is sent the buffer holds the frame, and at most this frame has gone out |
| Netif.LowLevelOutput | ethernet_ping/ENC28J60/Src/enc_netif.c:40-56 | for every chain of at most 600 bytes, wherever ERXRDPT points: zero at 0x0C00, the bytes of each pbuf at 0x0C01 plus the lengths of the pbufs before it, and ETXND at the last of them all; only this goes out; no buffer byte below TXSTART is written by the driver; a receive ring that is sound or held stays so, as with SendPacket |
| Netif.PayloadLength | ethernet_ping/ENC28J60/Src/enc_netif.c:47-51 | what is gathered is as long as all pbufs of the chain together |
| Netif.PayloadPart | ethernet_ping/ENC28J60/Src/enc_netif.c:47-51 | each pbuf's bytes lie in it behind those of the pbufs before it |
| Netif.WalkThrough | ethernet_ping/ENC28J60/Src/enc_netif.c:47-51 | every chain has a list of its pbufs with the lengths before each, which the two are about |
| Netif.MemCpy | ethernet_ping/ENC28J60/Src/enc_netif.c:49-49 | replaces exactly the bytes copied over |
| PollLoop.Poll | ethernet_ping/Core/Src/main.c:138-156 | one iteration is one call of PacketReceive with 400 bytes, which drains one packet if there is one, and then one call of SendPacket for each chain in order; it carries the conservation of frames and the order on the wire on, and leaves the chip in operation and its settings alone |
| PollLoop.Rounds | ethernet_ping/Core/Src/main.c:133-157 | n rounds make the calls of each in order; they drain min(n, EPKTCNT) packets when nothing arrives, whether or not pbufs can be had and whether or not the ring is sound; from a sound ring on, frames arrive complete and in order as long as the ring is held, which is as long as everything fits; exactly those that get a pbuf are handed on |
| PollLoop.Run | ethernet_ping/Core/Src/main.c:107-157 | from the reset on: one call of SendPacket for each chain sent when the interface comes up (line 118), and in each round one of PacketReceive and then one of SendPacket for each chain, in order; RXEN stays set and the registers stay as Init programs them with this address; what goes out is, in order and each at most once, among the payloads sent; the ring is held at every moment of the calls if and only if everything fits whenever ERXRDPT is outside, as it always does if no drained packet was followed by one at RXSTART; then received frames and frames in the buffer are the accepted frames in order, each as far as it is handed on, and the framing holds |
| PollLoop.SendAll | ethernet_ping/ENC28J60/Src/enc_netif.c:40-56 | each chain handed over is sent by one call of SendPacket, in order, and nothing else is |
| PollLoop.DeliversMeans | ethernet_ping/Core/Src/main.c:138-149 | what main gets of a queue, exactly: of every packet but those of four bytes its bytes without the last four, at most 400; of one shorter than four bytes 400 bytes |
| PollLoop.NonEmptyMeans | ethernet_ping/Core/Src/main.c:139-139 | the frames counted as received are those of the rounds with a length other than zero, in order |
| PollLoop.AcceptedMeans | ethernet_ping/Core/Src/main.c:141-147 | the frames handed on are those of the rounds with a length other than zero and a pbuf to be had, in order |
| PollLoop.PollStep | ethernet_ping/Core/Src/main.c:138-149 | what PacketReceive delivers extends the received frames by exactly the drained one, whatever its length, and what a call keeps extends what the run has kept |
| PollLoop.WireSends | ethernet_ping/ENC28J60/Src/enc_netif.c:40-56 | the next frame given to the driver: the one before it has gone out once or not at all, and what has gone out stays among the payloads given, in order |
| PollLoop.Conserved | ethernet_ping/Core/Src/main.c:133-157 | what main has got is completed by exactly what it will get of the unread packets to what it gets of all accepted ones |
| PollLoop.DeliversConcat | ethernet_ping/Core/Src/main.c:133-157 | of two queues of packets, main gets what it gets of the first and then what it gets of the second, and nothing else |
| MpuV8.MpuRegs.SetRegionEx | ethernet_ping/Drivers/CMSIS/Include/mpu_armv8.h:236-241 | puts the two words in place of the one region, if the MPU has it, and leaves all others |
| MpuV8.MpuRegs.OrderedCpy | ethernet_ping/Drivers/CMSIS/Include/mpu_armv8.h:270-277 | the words reach the alias registers in order; no word outside the 2 * RALIASES is ever written |
| MpuV8.MpuRegs.LoadEx | ethernet_ping/Drivers/CMSIS/Include/mpu_armv8.h:285-308 | same regions as setting them one by one, which puts table[i - rnr] in region i and leaves the others, for RALIASES 1 and 4 and every rnr and cnt that fit; each table word read once, in order |
| MpuV8.MpuRegs.LoadWindows | ethernet_ping/Drivers/CMSIS/Include/mpu_armv8.h:291-307 | the sliding window replaces exactly the regions rnr to rnr + cnt - 1 |
| MpuV8.SetRegionsReplaces | ethernet_ping/Drivers/CMSIS/Include/mpu_armv8.h:236-241 | one-by-one setting puts the table in place of those regions and leaves the others |
| MpuV8.RowsLand | ethernet_ping/Drivers/CMSIS/Include/mpu_armv8.h:298-298 | rows copied through the aliases land in consecutive regions if RNR is aligned |
| MpuV8.MpuRegs.SetMemAttrEx | ethernet_ping/Drivers/CMSIS/Include/mpu_armv8.h:169-180 | byte idx % 4 of MAIR register idx / 4 becomes the attribute and no other byte changes; an invalid index changes nothing |
| MpuV7.MpuRegs.Load | ethernet_ping/Drivers/CMSIS/Include/mpu_armv7.h:259-268 | same MPU state as setting the regions one by one, for any number of aliases and any table |
| MpuV7.MpuRegs.OrderedCpy | ethernet_ping/Drivers/CMSIS/Include/mpu_armv7.h:246-253 | the words reach the registers in order, within the aliases |
| MpuV7.MpuRegs.SetRegionNow | ethernet_ping/Drivers/CMSIS/Include/mpu_armv7.h:223-227 | RBAR and then RASR of the selected region |
| MpuV7.TableMeans | ethernet_ping/Drivers/CMSIS/Include/mpu_armv7.h:75-78 | with VALID set everywhere each region that is named ends with the last entry whose low four bits name it, whatever RNR was |
| MpuV7.UnnamedKept | ethernet_ping/Drivers/CMSIS/Include/mpu_armv7.h:75-78 | ... and the others are unchanged |
| MpuV7.WithoutValid | ethernet_ping/Drivers/CMSIS/Include/mpu_armv7.h:75-78 | without VALID all entries go to one region |
| MpuV7.OrderMatters | ethernet_ping/Drivers/CMSIS/Include/mpu_armv7.h:241-253 | writing RASR before RBAR gives the same state if and only if the entry is for the region already selected, or both regions have its attributes already |
| Nvic.NvicScb.SetPriority | ethernet_ping/Drivers/CMSIS/Include/core_cm0.h:730-742 | the low bits of the priority, shifted to the upper end of a byte, replace byte irq of the IP words, or byte irq + 8 of the SHP words for an exception, and no other byte of either; every other number reads back as before |
| Nvic.NvicScb.GetPriority | ethernet_ping/Drivers/CMSIS/Include/core_cm0.h:754-765 | the upper bits of that same byte, and the value that SetThenGet speaks of |
| Nvic.SetIs | ethernet_ping/Drivers/CMSIS/Include/core_cm0.h:730-742 | on values: which byte of which word is set, to what, and that all others stay |
| Nvic.GetIs | ethernet_ping/Drivers/CMSIS/Include/core_cm0.h:754-765 | on values: which byte is read, and what of it |
| Nvic.SetThenGet | ethernet_ping/Drivers/CMSIS/Include/core_cm0.h:730-765 | a priority set is read back modulo 2^bits, and no other interrupt or exception is disturbed |
| Nvic.LastSettingCounts | ethernet_ping/Drivers/CMSIS/Include/core_cm0.h:730-765 | over any sequence of settings each number has the last priority set for it, modulo 2^bits |
| Nvic.OthersKept | ethernet_ping/Drivers/CMSIS/Include/core_cm0.h:730-765 | ... and the others have what they had |
| Nvic.SamePlace | ethernet_ping/Drivers/CMSIS/Include/core_cm0.h:610-612 | no two interrupts share a byte lane |
| Nvic.BitsAddUp | ethernet_ping/Drivers/CMSIS/Include/core_cm0.h:785-786 | the preemption field has all implemented bits if the group and they are at most 7 together, and otherwise 7 less the group; the other field has the rest, in spite of the wrapping subtraction |
| Nvic.DecodePriority | ethernet_ping/Drivers/CMSIS/Include/core_cm0.h:806-817 | with fields of those widths, the outputs are quotient and remainder: the bits above the lower field, and the lower field |
| Nvic.EncodePriority | ethernet_ping/Drivers/CMSIS/Include/core_cm0.h:779-792 | with fields of those widths, each value modulo the size of its field, the preemption priority above the other |
| Nvic.RoundTrip | ethernet_ping/Drivers/CMSIS/Include/core_cm0.h:730-817 | encode, set, get and decode give both priorities back, each modulo the size of its field |
| Nvic.EncodingKeepsOrder | ethernet_ping/Drivers/CMSIS/Include/core_cm0.h:779-792 | in a group, with values that fit those fields, encoded order is preemption first and then subpriority, and encoding is injective |
| Lanes.LaneAfter | ethernet_ping/Drivers/CMSIS/Include/core_cm0.h:734-735 | mask and shift replace one byte of the word and no other |
| BitLoops.RbitIar | ethernet_ping/Drivers/CMSIS/Include/cmsis_iccarm.h:511-522 | the loop reverses all 32 bits although it stops early, and its counter never underflows |
| BitLoops.RbitGcc | ethernet_ping/Drivers/CMSIS/Include/cmsis_gcc.h:981-1002 | the other version computes the same reversal |
| BitLoops.ReverseBit | ethernet_ping/Drivers/CMSIS/Include/cmsis_gcc.h:975-980 | bit i goes to bit 31 - i |
| Bits.BitIs | ethernet_ping/Drivers/CMSIS/Include/cmsis_gcc.h:975-980 | bit i is what its place in the number says |
| BitLoops.ReverseTwice | ethernet_ping/Drivers/CMSIS/Include/cmsis_gcc.h:975-980 | reversal is its own inverse |
| BitLoops.Clz | ethernet_ping/Drivers/CMSIS/Include/cmsis_iccarm.h:496-509 | the loop ends with 32 for zero, and otherwise with the number that makes the value at least 2^(31 - zeros) and less than twice that |
| BitLoops.ClzOfRbit | ethernet_ping/Drivers/CMSIS/Include/cmsis_iccarm.h:496-522 | leading zeros of the reversal are the trailing zeros, for every value |
| BitLoops.TrailingMeans | ethernet_ping/Drivers/CMSIS/Include/cmsis_iccarm.h:496-522 | that many low bits are clear and the next one is set; all of them for zero |
| BitLoops.Normalised | ethernet_ping/Drivers/CMSIS/Include/cmsis_iccarm.h:496-509 | shifted left by its leading zeros a number has its top bit set and loses none |
| Sbrk.Heap.Sbrk | ethernet_ping/Core/Src/sysmem.c:53-79 | one call on the static heap end grants the block at the old end if and only if its end and the stack reserve together do not pass _estack; otherwise it returns (void *)-1 and changes nothing |
| Sbrk.GrantedIffItFits | ethernet_ping/Core/Src/sysmem.c:68-78 | a request is refused exactly when it would not leave the stack its reserve below _estack, and then changes nothing |
| Sbrk.BlocksTile | ethernet_ping/Core/Src/sysmem.c:53-79 | over any run of requests the granted blocks tile the heap from _end to its end, which leaves the stack its reserve below _estack |
| Sbrk.TilesAreDisjoint | ethernet_ping/Core/Src/sysmem.c:53-79 | the blocks are pairwise disjoint and in order |

## Left out

- Enc28Driver.Enc28j60.Init: the MAC, address and filter registers hold what is written to them; what the MAC, the PHY and the filters do with it is not modelled. The CLKRDY loop has no timeout and depends on the chip alone, so it is not modelled.
- Enc28Driver.Enc28j60.ReadPHY: MII registers answer after a dummy byte that `ReadOp` does not clock, so nothing is claimed about how the two replies that make up the value relate to the PHY register.
- Enc28Driver.Enc28j60.WritePHY: what the PHY does with the value is not modelled; MISTAT changes arbitrarily.
- Enc28Driver.Enc28j60.SendPacket: for frames longer than 5112 bytes, whose status bytes or data would run past the SRAM end, only termination and the packet count are stated; the one caller sends at most 600.
- Enc28Driver.Enc28j60.PacketReceive: for frames shorter than the FCS the contract gives the length, not the bytes, which come from beyond the frame.
- Ticks.StillWaiting: the clock is assumed to advance within every `period` commands or buffer bytes, and between two of them by less than the tick range without the 200 ticks of the longest wait, so that no poll can miss the end of a wait by a whole turn.
- Enc28Driver.Enc28j60.WriteOp: a command and its data byte are one step, at whose end the command takes effect; hardware events between its two bytes come before it.
- Chip: the six header bytes of a packet are written in one event, at the end of its frame; single bytes of frames are separate events. RXEN is only ever set, so a frame in progress when it is cleared is not modelled.
- Netif: a pbuf chain is a list of byte sequences; pbuf pools, lwIP and its timers are not modelled, except that the start-up and each round of the poll loop may send any chains of at most 600 bytes.
- Sbrk.BlocksTile: increments are not negative, because the code has no lower bound to check; pointer wrap does not occur because RAM ends in the lower half of the address space.
- MpuV8 and MpuV7: reserved bits of the region registers are kept as written, and CTRL, barriers and the non-secure aliases are left out.
- HAL, GPIO and clock set-up, the HTTP server, the button and the interrupt handlers: no logic of their own that the properties depend on.
