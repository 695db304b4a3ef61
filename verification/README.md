# A verified model of the DSi Wi-Fi driver

The driver runs on two CPUs. ARM9 runs lwIP; ARM7 talks to the Wi-Fi card over
SDIO. This project models the parts of it that do real work and proves what they
are for:

- `Words`, `InetSum`, `InetChksum`, `InetChain`, `InetVerify`: the Internet
  checksum (section 2 of RFC 1071). The three versions of the inner routine, the
  pbuf-chain drivers and the pseudo-header drivers (section 3.1 of RFC 9293 and
  RFC 768) all return exactly the reference value, 0 and 0xFFFF kept apart. The
  proof works modulo 65535, where a byte swap is a multiplication by 256, and
  adds that an accumulator is 0 only if every byte is.
- `Spinlock`: the two-CPU lock. The assembly listing is data, interpreted one
  instruction at a time, and the two CPUs interleave after every instruction.
- `RingHandoff`, `RingSafety`, `RingExact`, `RingTake`, `RingCases`, `RingFailures`,
  `DataPath`: the slot rings the CPUs share, in both directions, interleaved after
  every byte copied, with sends begun by interrupts inside other sends and the
  stamping of the rings on READY; when they deliver what was submitted, exactly;
  and the way on to the mailbox frames on one side and the pbufs on the other.
- `MboxFrame`, `MboxTrailer`, `MboxRead`, `MboxDecode`, `MboxStale`: outgoing mailbox
  frames, the trailer of incoming ones, the read path with its one-entry lookahead
  cache, its shared buffer and the handler that calls it again, and what it makes of
  frames put together field by field.
- `BmiUpload`: uploading memory through the boot interface, against an
  interpreter of the register writes.
- `SdioTransfer`: the programmed-I/O loop.
- `WifiHost`: the connection state machine of ARM9.
- `LwipDef`: number formatting and case-insensitive search.

Code that changes state is modelled by methods and classes that change state,
each tied to a specification function; the properties are lemmas about those
functions, over all inputs and all runs.

What the code does where a reader might expect something else:

- The poll in front of a mailbox read tests its timeout the wrong way round: data
  that arrives on the very last poll is not read, and a FIFO that stays empty is
  (`MboxRead.Poll`).
- Nothing in the code keeps ARM9 from taking a slot that is still in use. Its sends
  also nest: the timer and the message handler run as interrupts and may send while
  another send is under way. On transmit a slot may be handed out if and only if no
  unfinished message and no suspended send uses it (`RingTake.TakeExact`); it is not
  enough that fewer than 6 messages are unfinished (`RingFailures.FiveInsideOne`),
  and a send inside another's index update gets the same slot whatever is unfinished
  (`RingFailures.IndexRace`). Only where sends do not interrupt each other does
  counting messages suffice (`RingCases.SlotClash`). The necessity is proved for
  packets of more than 4 bytes, which an Ethernet header alone exceeds; a shorter
  one could be the marker itself.
- On receive the slot may be reused earlier, as soon as its bytes have been read,
  because the marker still to come falls on the frame header. But an 802.1X frame
  takes a slot without sending a message, so counting unfinished messages says
  nothing there (`RingCases.RxClashIs`, `RingHandoff.KeptFrameTakesSlot`).
- Every READY, and ARM7 sends one after each key handshake, makes ARM9 stamp all
  slots of both rings. On transmit the stamp falls on the packet itself, so a
  packet that is waiting, being read or being written loses its first bytes
  (`RingFailures.ReadyOverwrites`); `RingExact.StampExact` and
  `RingCases.ReadyHarmlessExactly` say exactly when it does not. On receive it is
  always harmless (`RingExact.RxStampSurvives`).
- The handler of an HTC READY frame reads five more frames into the same buffer
  before the READY frame's own trailer is looked at. A trailer there is believed
  five frames too late, and a device that tells the truth is misread
  (`MboxStale.FrameMistaken`); without one, cache and register always agree
  (`MboxRead.RunsAgree`).
- The 4-byte shortcut of an upload loads a word from wherever the data lies; ARM7
  rotates an unaligned load (`BmiUpload.SeenExact`).
- `lwip_strnicmp` with length 0 does not compare nothing but everything
  (`LwipDef.StrNiCmp`).
- The condition of the periodic DHCP prod reads `(A && B) || C`, so the prod runs
  with lwIP never started while the address is 0 (`WifiHost.ProdsBeforeLwip`).
- The assertion in the partial checksum driver only prints, so the result is
  right whether or not it fires; `InetChain.SumPartial` says exactly when it does.
- A boot-interface command pads with `len % 4` zero bytes, which makes the
  declared length consistent but not a multiple of 4.

## Model

| member | source | states |
|---|---|---|
| `Words.PutThenGet` | common/source/utils.h:85-91 | reading back a stored little-endian word gives the word, for every 32-bit value |
| `Words.GetThenPut` | common/source/utils.h:21-27 | storing a word read from four bytes gives those bytes back |
| `Words.RoundUpBlock` | common/source/utils.h:12 | the least multiple of 0x80 not below the argument |
| `InetSum.RepFoldTwice` | include/lwip/inet_chksum.h:49-53 | two folds of any 32-bit sum fit 16 bits and stand for the same one's complement value |
| `InetSum.RepSwap` | include/lwip/inet_chksum.h:45-47 | a byte swap of a 16-bit accumulator is multiplication by 256 modulo 65535, losing no bits |
| `InetSum.WSumConcat` | arm_host/source/lwip/inet_chksum.c:567-588 | the weighted byte sum of a concatenation splits, the second weighting depending on the parity of the first part |
| `InetSum.WSumShift` | arm_host/source/lwip/inet_chksum.c:167-170 | the two weightings of the same bytes differ by the factor 256 modulo 65535 and vanish together |
| `InetSum.RefSumRep` | arm_host/source/lwip/inet_chksum.c:79-114 | the RFC 1071 sum stands for the big-endian byte sum and is 0 only when every byte is |
| `InetSum.HostSumExact` | arm_host/source/lwip/inet_chksum.c:132-173 | a 16-bit accumulator congruent to the byte sum, and 0 only with it, is the reference sum itself, not just modulo 65535 |
| `InetChksum.FoldSwapExact` | arm_host/source/lwip/inet_chksum.c:159-172 | the folds and the odd-address swap turn a congruent 32-bit sum into exactly the reference sum, for both alignments |
| `InetChksum.SumFits` | arm_host/source/lwip/inet_chksum.c:117-131 | for at most 0x20000 bytes, in either weighting, the sum stays inside 32 bits |
| `InetChksum.StandardChksum1` | arm_host/source/lwip/inet_chksum.c:79-114 | the byte-pair version returns the reference sum in host order |
| `InetChksum.StandardChksum2` | arm_host/source/lwip/inet_chksum.c:132-173 | the 16-bit version returns the same value for every start address; every load is aligned and no addition wraps |
| `InetChksum.RepAddBack` | arm_host/source/lwip/inet_chksum.c:213-225 | 32-bit addition with the carry added back keeps the one's complement value, for all operands |
| `InetChksum.SumWords` | arm_host/source/lwip/inet_chksum.c:213-225 | the unrolled loop keeps the sum congruent and leaves at most 7 bytes, without a length bound |
| `InetChksum.SumPairs` | arm_host/source/lwip/inet_chksum.c:227-236 | the 16-bit loop after the fold cannot overflow and leaves at most one byte |
| `InetChksum.StandardChksum3` | arm_host/source/lwip/inet_chksum.c:188-255 | the 32-bit version returns the same value for every start address and every length |
| `InetChksum.Chksum` | arm_host/source/lwip/inet_chksum.c:554-558 | `inet_chksum` returns the checksum field of the buffer |
| `InetChain.CarriedAdd` | arm_host/source/lwip/inet_chksum.c:266-279 | adding one pbuf's own sum after any number of bytes, odd or even, keeps the accumulator at 16 bits and right |
| `InetChain.SumChain` | arm_host/source/lwip/inet_chksum.c:266-283 | the chain loop with its swaps sums the concatenated bytes, whatever the lengths and alignments of the pbufs and whatever was summed before |
| `InetChain.ChksumPbuf` | arm_host/source/lwip/inet_chksum.c:567-588 | `inet_chksum_pbuf` returns exactly the checksum field of the chain's concatenated bytes |
| `InetChain.PseudoSum` | arm_host/source/lwip/inet_chksum.c:285-286 | the sum over the 12 pseudo-header bytes is the sum of the pieces the code adds one by one |
| `InetChain.AddProtoExact` | arm_host/source/lwip/inet_chksum.c:285-293 | adding protocol and length, folding and complementing yields the checksum of header and segment exactly |
| `InetChain.ChksumPseudo` | arm_host/source/lwip/inet_chksum.c:309-327 | `inet_chksum_pseudo` returns the flat checksum of the pseudo-header followed by the chain's bytes |
| `InetChain.SumPartial` | arm_host/source/lwip/inet_chksum.c:402-429 | the partial loop sums the first `chksum_len` bytes of the chain although it swaps on whole pbufs; the assertion fires if and only if 0x7FFF bytes or more are left after the first pbuf |
| `InetChain.ChksumPseudoPartial` | arm_host/source/lwip/inet_chksum.c:455-473 | the partial checksum is the full one of the covered bytes, and of the whole chain where they are all of it |
| `InetVerify.WordChangeDetected` | arm_host/source/lwip/inet_chksum.c:554-558 | replacing an aligned word leaves the checksum the same if and only if the words are equal, or are 0 and 0xFFFF with something else nonzero |
| `InetVerify.StoredChecksumVerifies` | arm_host/source/lwip/inet_chksum.c:554-558 | the values that make a message verify are exactly the computed checksum and, where that is 0, also 0xFFFF |
| `Spinlock.RunKeeps` | common/source/spinlock.s:15-45 | every interleaving of the two listings in which no owner calls Acquire keeps the exact invariant tying lock word, registers and program counters |
| `Spinlock.RunLoose` | common/source/spinlock.s:15-45 | every interleaving of any calls whatever keeps a weaker invariant, in which the lock word may carry the mark of a CPU that no longer holds it |
| `Spinlock.MutualExclusion` | common/source/spinlock.s:15-45 | in every interleaving of any calls, in or out of order, at most one CPU holds the lock; a Release that returned 2 to its holder still holds it |
| `Spinlock.ReleaseReads` | common/source/spinlock.s:34-45 | an access of Release reads a foreign value if and only if the caller does not own the lock or the other CPU is between its swap and its revert |
| `Spinlock.AcquireReads` | common/source/spinlock.s:15-29 | the swap of Acquire takes the lock if and only if the other CPU does not hold it |
| `Spinlock.AcquireReverts` | common/source/spinlock.s:27-29 | the losing side's second swap puts the owner's mark back |
| `Spinlock.ReleaseContended` | common/source/spinlock.s:34-45 | in every state of every run: what the next access of a Release reads, and that what it is about to return is what it read |
| `Spinlock.ReleaseReturns` | common/source/wifi_shared.h:36-45 | in every run, the step with which a Release returns hands out 2 if and only if the caller did not own the lock or the other CPU was in its revert window at that very Release's deciding access, which is exhibited as a turn of the run |
| `Spinlock.AcquireReturns` | common/source/spinlock.s:15-29 | in every run in which no owner calls Acquire, the step with which an Acquire returns hands out 0 or 1, and 0 if and only if the other CPU did not hold the lock at that very Acquire's deciding access, which is exhibited as a turn of the run |
| `Spinlock.UnhinderedRun` | common/source/spinlock.s:15-26 | from any instruction of an Acquire of a free lock, left undisturbed, it takes the lock and returns 0 |
| `Spinlock.AcquireAlone` | common/source/spinlock.s:15-26 | an Acquire begun while the other CPU does not hold the lock, and left undisturbed, returns 0 with the caller's mark in the lock |
| `Spinlock.UndisturbedRun` | common/source/spinlock.s:34-45 | from any instruction of Release, left undisturbed, it returns 0 and frees the lock |
| `Spinlock.ReleaseAlone` | common/source/wifi_shared.h:36-38 | a retried Release succeeds once the other CPU has reverted |
| `Spinlock.LockProgress` | common/source/wifi_shared.h:36-64 | the progress facts in every state of every interleaving in which no owner calls Acquire: when a swap takes the lock, that an undisturbed Acquire of a free lock gets it, and that an undisturbed Release frees it |
| `RingHandoff.ShapeKept` | arm_host/source/wifi_host.c:56-149 | every step, nested sends and stamps included, keeps index, queue, sends under way and reader consistent with the submissions and with the order of announcement |
| `RingHandoff.SlotsApart` | arm_iop/source/wifi_card.twl.c:703-712 | different slots do not overlap |
| `RingSafety.CopyHeld` | arm_host/source/wifi_host.c:132 | a byte copied into a slot by the running send changes no byte that is still to be read elsewhere |
| `RingSafety.MarkHeld` | arm_iop/source/wifi_card.twl.c:1071 | the processed marker changes no byte that is still to be read |
| `RingSafety.StampHeld` | arm_host/source/wifi_host.c:56-71 | a stamp that falls on no unread byte, or only on bytes equal to its own, spoils nothing |
| `RingSafety.FetchPart` | arm_iop/source/wifi_card.twl.c:1066-1069 | the byte fetched is the byte submitted |
| `RingSafety.SeparateKept` | arm_host/source/wifi_host.c:95-106 | careful steps never have a transmit slot in use twice, suspended sends counted, nor a receive slot written while it is still to be read |
| `RingSafety.IntactKept` | arm_host/source/wifi_host.c:56-149 | a careful step of either CPU keeps all of this and every delivery made so far |
| `RingSafety.RxStampHarmless` | arm_host/source/wifi_host.c:65-69 | on receive every stamp is of that kind, because it falls on the frame header |
| `RingSafety.DeliveredAsSubmitted` | arm_host/source/wifi_host.c:56-149 | over every careful interleaving, in both directions, with sends begun inside sends and READY at any moment, each delivery is what was submitted under its number |
| `RingHandoff.RunInOrder` | arm_iop/source/wifi_card.twl.c:1064-1076 | in every interleaving, whatever interrupted what, deliveries come in the order of announcement and none twice |
| `RingSafety.TransmittedWhole` | arm_iop/source/wifi_card.twl.c:1064-1076 | in every careful interleaving the k-th frame transmitted is the k-th packet announced, whole up to 0x5FA bytes and cut there beyond |
| `RingHandoff.NothingDropped` | arm_iop/source/wifi_card.twl.c:1064-1076 | in every run, careful or not, whenever everything is idle a frame has been transmitted for every packet submitted, and no more |
| `RingExact.DoomEnds` | arm_iop/source/wifi_card.twl.c:1064-1076 | a wrong byte that somebody still wants is delivered by some continuation, which is exhibited |
| `RingTake.TakeExact` | arm_host/source/wifi_host.c:95-149 | after any careful run, at any moment and inside any sends, the next slot can be handed out for every item without spoiling any later delivery if and only if there is no clash: on transmit, the slot is used by no unfinished message and no suspended send; on receive, it has no unread byte |
| `RingExact.TakeSurvives` | arm_host/source/wifi_host.c:95-149 | without a clash no item does harm |
| `RingTake.ResumedSendFails` | arm_host/source/wifi_host.c:122-149 | a send given the slot of one it has interrupted is spoiled when that one goes on |
| `RingTake.LateMarkerFails` | arm_iop/source/wifi_card.twl.c:1071 | a packet put into a slot whose marker is still to come goes out with the marker |
| `RingCases.RunNumbered` | arm_host/source/wifi_host.c:95-106 | in every careful run slots go round in the order of submission, and only the running send can be inside its index update |
| `RingCases.TxClashIs` | arm_host/source/wifi_host.c:95-106 | on transmit, at any moment of any careful run, there is a clash if and only if an index update is under way or the submission six before the next is still in use, as an unfinished message or a suspended send |
| `RingCases.RxClashIs` | arm_iop/source/wifi_card.twl.c:703-757 | on receive a slot must not be reused if and only if the message of its last frame is waiting and not empty, or being read and not read to its end |
| `RingExact.StampExact` | arm_host/source/wifi_host.c:56-71 | on transmit, one store of `data_init_bufs` at any moment spoils no later delivery if and only if it changes no byte still to be read |
| `RingExact.ReadyStampsExact` | arm_host/source/wifi_host.c:56-71 | the same for all six stores of a READY |
| `RingExact.RxStampSurvives` | arm_host/source/wifi_host.c:65-69 | on receive no stamp spoils any later delivery, in any careful run |
| `RingCases.ReadyHarmlessExactly` | arm_host/source/wifi_host.c:238-247 | on transmit a READY is harmless if and only if, message by message, what it would overwrite is read, not yet written, or the marker's own bytes |
| `RingCases.SlotClash` | arm_host/source/wifi_host.c:95-106 | where no send interrupts another, there is a clash if and only if 6 messages are unfinished, and packets are transmitted in the order of submission |
| `RingFailures.SendsLine` | arm_host/source/wifi_host.c:122-149 | sends in a row, also inside another, are careful as long as there are free slots |
| `RingFailures.ReadyOverwrites` | arm_host/source/wifi_host.c:316-323 | concrete failure: one waiting packet, a READY, and ARM7 transmits 0x0F for its first byte |
| `RingFailures.SeventhSendOverwrites` | arm_host/source/wifi_host.c:95-149 | concrete failure: after six careful sends, the first packet goes out with the seventh one's byte |
| `RingFailures.IndexRace` | arm_host/source/wifi_host.c:96-100 | concrete failure: a send inside an index update gets the same slot and goes out with the other's byte, with nothing unfinished |
| `RingFailures.FiveInsideOne` | arm_host/source/wifi_host.c:95-149 | concrete failure: five careful sends inside another leave only five messages unfinished, and the next send still spoils a packet |
| `RingHandoff.ReaderInside` | arm_host/source/wifi_host.c:184-202 | in every run the index is in range, the reader stays inside one slot, and on receive the marker at `data - 6` hits the slot base and no payload byte |
| `RingHandoff.KeptFrameTakesSlot` | arm_iop/source/wifi_card.twl.c:591-594 | a received 802.1X frame uses up a slot without adding a message |
| `RingHandoff.SendSteps` | arm_host/source/wifi_host.c:122-149 | the producer's steps together, uninterrupted, fill the slot, advance the index and queue one message, however the index is read back |
| `DataPath.HostSide.InitBufs` | arm_host/source/wifi_host.c:56-71 | both rings are stamped, all slots, whatever they hold, and nothing else changes |
| `DataPath.StampRingIsSteps` | arm_host/source/wifi_host.c:56-71 | that is what the stamp steps do to a ring, in both directions |
| `DataPath.HostSide.SendLink` | arm_host/source/wifi_host.c:122-149 | nothing for an empty packet; else exactly the slot's bytes change, and one message names slot and truncated length |
| `DataPath.SendLinkIsSteps` | arm_host/source/wifi_host.c:122-149 | `SendLink` does what the uninterrupted producer steps do, for every packet, also inside other sends |
| `DataPath.HandleSendPkt` | arm_iop/source/wifi_card.twl.c:1064-1076 | the frame carries the slot's bytes from before the marker, and only the marker changes the ring |
| `DataPath.SendToLwip` | arm_host/source/wifi_host.c:184-202 | the pbuf gets the announced bytes that fit; the marker changes nothing from `data` on |
| `DataPath.EndToEnd` | arm_iop/source/wifi_card.twl.c:541-566 | in every careful interleaving, nested sends included, the k-th frame decodes to the bytes of the k-th packet announced |
| `DataPath.ReceivedFits` | arm_iop/source/wifi_card.twl.c:746-757 | every frame the read path accepts is one the rings are proved for |
| `DataPath.TakenIsStep` | arm_iop/source/wifi_card.twl.c:703-712 | the slot and the next index that ARM7 uses for a received data frame are those of the ring steps |
| `DataPath.ClobberIsFrame` | arm_iop/source/wifi_card.twl.c:746-757 | the frames used to show a receive slot reused too early are frames the read path accepts |
| `DataPath.ReceiveEndToEnd` | arm_iop/source/wifi_card.twl.c:591-609 | for a data frame of any type but 802.1X, built field by field, ARM7 announces exactly its packet, and in every careful interleaving what ARM9 copies is the beginning of that packet |
| `MboxFrame.TransferShape` | arm_iop/source/wifi_card.twl.c:247-260 | every transfer is the least number of whole blocks that holds header and payload, 1 to 12, the block count times 0x80 is the length, and the last byte lands on 0x3FFF |
| `MboxFrame.PacketRoundTrip` | arm_iop/source/wifi_card.twl.c:541-566 | with or without a source, and whatever was in the buffer, a receiver recovers type, ack, length and extra word, and the payload where it fits; the frame is complete if and only if it does |
| `MboxFrame.WmiRoundTrip` | arm_iop/source/wifi_card.twl.c:646-676 | the same for commands, with the command word; a command of length 0 is complete and its payload is exactly the command word |
| `MboxFrame.PacketBytes` | arm_iop/source/wifi_card.twl.c:541-566 | header, payload and, behind it, the buffer as it was |
| `MboxFrame.SendPacket` | arm_iop/source/wifi_card.twl.c:541-566 | the shared buffer and the transfer are those of the round trip, bytes past the payload left as they were |
| `MboxFrame.SendWmi` | arm_iop/source/wifi_card.twl.c:646-676 | likewise for commands |
| `MboxTrailer.ScanTrailer` | arm_iop/source/wifi_card.twl.c:844-867 | the loop ends for any bytes, its 16-bit index never wraps, and it returns the front-to-back scan |
| `MboxTrailer.ScanRecords` | arm_iop/source/wifi_card.twl.c:844-867 | from the start of any list of records, the scan finds the first framed lookahead record |
| `MboxTrailer.ScanEncoded` | arm_iop/source/wifi_card.twl.c:844-867 | for any encoded list of records the scan yields the first lookahead word, or none if there is none |
| `MboxTrailer.ScanLocal` | arm_iop/source/wifi_card.twl.c:844-867 | what is found in a trailer of whole records does not depend on the bytes behind it |
| `MboxTrailer.EncodedTiled` | arm_iop/source/wifi_card.twl.c:844-867 | every encoded list of records is a trailer of whole records |
| `MboxRead.Poll` | arm_iop/source/wifi_card.twl.c:721-732 | the read is skipped if and only if data first shows on the 100th poll |
| `MboxRead.ReadAgrees` | arm_iop/source/wifi_card.twl.c:716-878 | one read, with the reads its handler makes: cache and register give the same result, the cache is right for the frame then first, and the frames are handled as a flat loop would, in order and each under its own header, as long as no READY frame handled carries a trailer |
| `MboxRead.ReadyExact` | arm_iop/source/ath/htc.twl.c:24-46 | for a READY frame with a trailer, exactly: the cache is right afterwards if and only if what stands in the buffer at the trailer's place after the nested reads is no lookahead or the header of the frame then first |
| `MboxRead.StaleLookahead` | arm_iop/source/wifi_card.twl.c:844-867 | where the nested reads do not reach the trailer: the cache is right if and only if the READY frame announces nothing or the frame then first has the announced one's header |
| `MboxRead.WrongHeader` | arm_iop/source/wifi_card.twl.c:734-742 | a driver agrees with its queue if and only if the next read takes the first frame's header from cache and register alike |
| `MboxRead.RunsAgree` | arm_iop/source/wifi_card.twl.c:716-878 | over every run of arrivals, interrupts and INITBUFS in which no READY frame handled carries a trailer: cache and register give the same driver, the cached word is the header at the head of the queue, and all but the cache is what a flat loop over the frames gives |
| `MboxRead.RunExact` | arm_iop/source/wifi_card.twl.c:716-878 | over whole runs with READY frames of any kind first in line, exactly: the cache is right after every input if and only if at each READY frame what stands at its trailer's place after the nested reads is no lookahead or the header of the frame then first |
| `MboxRead.BehindOne` | arm_iop/source/wifi_card.twl.c:716-878 | bytes queued behind do not change a read, with its nested reads, that finds what it needs |
| `MboxRead.ArrivalsInside` | arm_iop/source/ath/htc.twl.c:35-44 | a read of a READY frame with frames arriving before each of the five nested reads is the read with all of them queued from the start |
| `MboxRead.NeverMisframed` | arm_iop/source/wifi_card.twl.c:716-878 | no read of such a run cuts a frame at the wrong place |
| `MboxDecode.DataFrameRead` | arm_iop/source/wifi_card.twl.c:568-609 | reading a FIFO that starts with a data frame built out of header, SNAP bytes, type, payload and trailer logs one event: for type 0x888E the supplicant with exactly the payload, for every other type ARM9 with exactly the packet |
| `MboxDecode.CommandFrameRead` | arm_iop/source/wifi_card.twl.c:816-833 | HTC and WMI frames give back command word, body and lengths; all but HTC command 1 take one frame off the FIFO |
| `MboxDecode.ShortCommandRead` | arm_iop/source/wifi_card.twl.c:821-833 | a packet too short for a command word hands on a length that wraps around |
| `MboxDecode.OtherFrameRead` | arm_iop/source/wifi_card.twl.c:838-842 | frames of any other kind are only reported |
| `MboxDecode.FrameRead` | arm_iop/source/wifi_card.twl.c:744-757 | where a frame goes: data frames into the slot at the index once there is a ring, all others over the beginning of the shared buffer |
| `MboxDecode.TrailerRead` | arm_iop/source/wifi_card.twl.c:816-867 | for a frame built with any list of trailer records, what is cached afterwards is the first lookahead record's word, or nothing |
| `MboxDecode.EncodedHeader` | arm_iop/source/wifi_card.twl.c:746-749 | kind, length and trailer length are read back as built, also when the trailer-length byte is junk because no ack is present |
| `MboxDecode.SlotsGoRound` | arm_iop/source/wifi_card.twl.c:703-712 | over any frames, each data frame is put into the slot that the data frames before it have moved the index to |
| `MboxDecode.SlotsDiffer` | arm_iop/source/wifi_card.twl.c:703-712 | data frames fewer than six apart get different slots |
| `MboxRead.RunKeepsIndex` | arm_iop/source/wifi_card.twl.c:703-712 | the ring index stays inside the ring, whatever the device sends |
| `MboxStale.ReadyMisleads` | arm_iop/source/ath/htc.twl.c:24-46 | for every honest FIFO of this shape, one read of a READY frame leaves the header of a frame that is gone |
| `MboxStale.FrameMistaken` | arm_iop/source/wifi_card.twl.c:844-867 | a concrete honest FIFO whose last frame is handed to the wrong handler |
| `MboxRead.Card.PickBuffer` | arm_iop/source/wifi_card.twl.c:746-757 | a ring slot for data frames once ARM9 announced its buffers, else none |
| `MboxRead.Card.Handshake` | arm_iop/source/ath/htc.twl.c:24-46 | five reads in a row, each with whatever it nests |
| `MboxRead.Card.TakeLookahead` | arm_iop/source/wifi_card.twl.c:816-867 | the cache holds what is found at the trailer's place in the slot or in the shared buffer, as it is by then |
| `MboxRead.Card.ReadPkt` | arm_iop/source/wifi_card.twl.c:734-878 | one call, nested calls and shared buffer included, is the read that the lemmas are about, for every FIFO |
| `BmiUpload.StoredAt` | arm_iop/source/wifi_card.twl.c:915-937 | storing, address by address: the bytes where they belong and everything else unchanged, around the 32-bit address space |
| `BmiUpload.MboxCommand` | arm_iop/source/wifi_card.twl.c:921-936 | a mailbox command stores exactly the bytes behind its header and leaves the loader ready |
| `BmiUpload.WindowWord` | arm_iop/source/wifi_card.twl.c:345-378 | the window registers, written most significant byte first, store one word at the address |
| `BmiUpload.ShortcutSame` | arm_iop/source/wifi_card.twl.c:917-920 | the 4-byte shortcut stores what the mailbox command would have |
| `BmiUpload.CommandEffect` | arm_iop/source/wifi_card.twl.c:915-937 | one command, of either kind, stores the data and its padding |
| `BmiUpload.UploadEffect` | arm_iop/source/wifi_card.twl.c:1014-1022 | after an upload of any length below 2^31, memory holds the data, `len % 4` zero bytes behind it, and is otherwise unchanged |
| `BmiUpload.SeenExact` | arm_iop/source/wifi_card.twl.c:917-921 | what is sent is what lies in memory if and only if the source is aligned, or no fragment of 4 is left over, or the bytes an unaligned word load rotates in happen to be right |
| `BmiUpload.WriteMbox32` | arm_iop/source/wifi_card.twl.c:454-473 | four mailbox writes, least significant byte first |
| `BmiUpload.CmdWriteMemory` | arm_iop/source/wifi_card.twl.c:915-937 | the writes are those of the command whose effect is proved, with the word of the shortcut as an ARM7 load yields it |
| `BmiUpload.WriteMemory` | arm_iop/source/wifi_card.twl.c:1014-1022 | the writes are those of the upload whose effect is proved, for the bytes as ARM7 reads them |
| `SdioTransfer.LoopOutcome` | arm_iop/source/wifi_sdio.twl.c:144-251 | for all readings, in the bits they consist of: the loop ends at the least turn with an error bit, with all awaited flags and the command ended, or with nothing left under break_early, and goes on if there is none; which of the three it reports, exactly |
| `SdioTransfer.DrainIs` | arm_iop/source/wifi_sdio.twl.c:159-207 | the blocks moved are as many as there were ready turns, as long as whole ones are left |
| `SdioTransfer.StuckWithoutBuffer` | arm_iop/source/wifi_sdio.twl.c:223-250 | a block command without a buffer and with bytes to move ends only by an error |
| `SdioTransfer.Context.ReadBlock` | arm_iop/source/wifi_sdio.twl.c:159-178 | one block of FIFO words lands in its place, the rest of the buffer unchanged |
| `SdioTransfer.Context.WriteBlock` | arm_iop/source/wifi_sdio.twl.c:191-207 | the block's words go out in order |
| `SdioTransfer.Context.Move` | arm_iop/source/wifi_sdio.twl.c:146-209 | a turn conserves bytes moved plus bytes left and keeps FIFO order |
| `SdioTransfer.Context.Settle` | arm_iop/source/wifi_sdio.twl.c:211-250 | whether and why a turn is the last, and exactly which status flags it sets |
| `SdioTransfer.Context.PollLoop` | arm_iop/source/wifi_sdio.twl.c:144-251 | exit, bytes left and turns are the outcome above; moved plus left is the size; the words are the FIFO's, in order, inside the buffer; the status flags are those seen at turns where the command had ended |
| `SdioTransfer.Context.SendCommand` | arm_iop/source/wifi_sdio.twl.c:57-291 | the same for the whole routine, with its block-size fallback, its alignment error and its DMA exit |
| `WifiHost.Clocks` | arm_host/source/wifi_host.c:407-419 | after n ticks the clock has advanced by n / 2 and the second counter is n modulo 1001 |
| `WifiHost.ConnectsOnce` | arm_host/source/wifi_host.c:257-301 | over all events the connect handler has run once if lwIP is up, else never |
| `WifiHost.NeverSearchingAgain` | arm_host/source/wifi_host.c:373-384 | a status that has left searching never returns to it |
| `WifiHost.ReconnectsBounded` | arm_host/source/wifi_host.c:257-439 | reconnects, plus a pending renewal, are at most the CONNECT messages plus n / 1001 |
| `WifiHost.HistoryExact` | arm_host/source/wifi_host.c:257-439 | over all events, in terms of the events alone: lwIP is up if and only if an access-point message with a successful netif_add has come; the address is the last one set; a renewal is pending if and only if one was asked for and not settled since; the reconnect handler has been called once for every prod and every renewal |
| `WifiHost.ConnectedExactly` | arm_host/source/wifi_host.c:281-300 | the connect handler has run once if a start has succeeded, else never |
| `WifiHost.StatusExact` | arm_host/source/wifi_host.c:373-384 | searching, acquiring or associated, each if and only if the events say so |
| `WifiHost.ProdsBeforeLwip` | arm_host/source/wifi_host.c:424 | with address 0 the prod runs every 1001 ticks although lwIP is down |
| `WifiHost.ReadyAnnounces` | arm_host/source/wifi_host.c:238-247 | over all events, the rings are announced to ARM7 once for every READY, however late, and never otherwise; the host counts as ready from the first one on |
| `WifiHost.Driver.StartLwip` | arm_host/source/wifi_host.c:257-301 | renewal, first start or failed start, as the state machine has it |
| `WifiHost.Driver.HandleMsg` | arm_host/source/wifi_host.c:303-341 | every message changes the statics as the state machine has it, short ones not at all |
| `WifiHost.Driver.HandleTick` | arm_host/source/wifi_host.c:405-439 | a tick changes the statics as the state machine has it |
| `WifiHost.Driver.GetStatus` | arm_host/source/wifi_host.c:373-384 | searching if and only if lwIP is down |
| `LwipDef.TextParses` | arm_host/source/lwip/def.c:221-262 | the canonical decimal text parses back to the number and contains no NUL |
| `LwipDef.PutDigits` | arm_host/source/lwip/def.c:240-248 | the backward loop writes the low digits inside its room; all of them if it ends with 0 |
| `LwipDef.Format` | arm_host/source/lwip/def.c:221-262 | the canonical text if it fits with its NUL, else the empty string |
| `LwipDef.Itoa` | arm_host/source/lwip/def.c:221-262 | the same for every buffer size, 0 and 1 included, with nothing beyond the buffer touched |
| `LwipDef.MatchIsFolding` | arm_host/source/lwip/def.c:190-206 | the bit trick is equality up to ASCII case, for all pairs of bytes |
| `LwipDef.StrNiCmp` | arm_host/source/lwip/def.c:185-212 | 0 if and only if the strings agree up to case over n characters or up to a common NUL; a length of 0 wraps around and means no limit |
| `LwipDef.StrNiStr` | arm_host/source/lwip/def.c:127-141 | the least match lying wholly within n bytes and before any NUL, or none if there is none |

## Left out

- SDIO and NDMA register setup, clocks and card bring-up: hardware whose behaviour is not in the code.
- The handlers of WMI frames, the supplicant, DHCP, `netif` and `pbuf_alloc`, and what the HTC handler sends: a call is an event, or a result passed in; of the HTC handler, the five reads are modelled.
- Frames longer than 0x5FA bytes and the discard path above 0x2000: receive buffers hold 0x600 bytes, so these lie outside the frame model.
- Boot-interface commands other than a memory write, and compressed upload: they would repeat the mailbox proof.
- IPv6 checksum variants (compiled out) and the copying checksum: they would repeat the IPv4 proof.
- `lwip_strnstr` and `lwip_stricmp`: simpler forms of the two routines modelled.
- `altcp`, statistics, logging and option headers: forwarding, printing and configuration only.
- MboxRead.RunsAgree: covers devices that queue whole frames of at most 0x5FA bytes with trailers of whole records that tell the truth.
- MboxRead.RunExact: a READY frame read by another READY frame's handler has no trailer.
- MboxRead.Card.ReadPkt: a read of an empty FIFO does nothing, where the code would read on after its polls; a frame that does not fit is logged as outside the model.
- Data frames that arrive before INITBUFS: announced to ARM9 from the driver's own buffer; their hand-off is not modelled.
- MboxRead.Poll: decides only whether the read goes on; a read of an empty FIFO is outside the frame model.
- RingSafety.DeliveredAsSubmitted: the FIFO between the CPUs delivers messages in order, and memory is uncached, as the code arranges; the six-slot ring is the one ARM9 announces.
- RingTake.TakeExact: that a clash does harm on transmit is proved for packets of more than 4 bytes; that no clash does none holds for all (`RingExact.TakeSurvives`).
- DataPath.HandleSendPkt: has the outgoing mailbox buffer to itself, which the critical section around the data and WMI senders provides; the HTC sender, used only during the handshake, takes none.
- Spinlock.LockProgress: no owner calls Acquire; with such calls only the weaker invariant of `Spinlock.RunLoose` is kept, which lets a mark stay in the lock for nobody.
- Spinlock.AcquireReturns: the same discipline.
- Spinlock.ReleaseReturns: the same discipline.
- SdioTransfer.Context.SendCommand: status registers are their decoded bits, and the waits before the command are not modelled; a block that is to be moved consists of whole words, because on any other size the loop that moves it does not end.
- BmiUpload.WriteMemory: the loop index is a C int, which wraps for lengths of 2^31 and more; shorter lengths are covered.
- LwipDef.Itoa: the most negative int is excluded, because its negation is undefined in C.
- WifiHost.ConnectsOnce: counts the points where a handler would be called; a handler pointer that is NULL is not called there.
- WifiHost.Driver.StartLwip: the interface address is lwIP's to set and changes by events of its own.
- InetChain.ChksumPbuf: a chain is a sequence of buffers; the linked `next` pointers are not modelled.
