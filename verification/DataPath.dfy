/** The code on the two ends of the slot rings, in place: data_init_bufs,
    data_send_link and data_send_to_lwip of arm_host/source/wifi_host.c and the SENDPKT handler of
    arm_iop/source/wifi_card.twl.c; and the transmit path from end to end. */
module DataPath {
  import opened Words
  import opened RingHandoff
  import RingSafety
  import RingExact
  import MboxFrame
  import MboxRead
  import MboxDecode

  const DATA_PACKET := 2
  const BROADCAST := 0x2008  // the extra header word of data_send_pkt_idk

  /** The part of a packet that data_send_link passes on. */
  function Truncated(data: seq<Byte>): (r: seq<Byte>)
    ensures r <= data && |r| == Min(|data|, 0x600)
  {
    if |data| > SLOT then data[..SLOT] else data
  }

  /** 0xF00FF00F stored at `p`. */
  method WriteMarker(a: array<Byte>, p: nat)
    requires p + 4 <= a.Length
    modifies a
    ensures a[..] == Marked(old(a[..]), p)
  {
    a[p], a[p + 1], a[p + 2], a[p + 3] := 0x0F, 0xF0, 0x0F, 0xF0;
  }

  /** A ring with its first `n` slots stamped. */
  function StampAll(mem: seq<Byte>, n: nat): (r: seq<Byte>)
    requires |mem| == RINGS * SLOT && n <= RINGS
    ensures |r| == |mem|
  {
    if n == 0 then mem else Marked(StampAll(mem, n - 1), SLOT * (n - 1))
  }

  /** One of the two loops of data_init_bufs. */
  method StampRing(a: array<Byte>)
    requires a.Length == RINGS * SLOT
    modifies a
    ensures a[..] == StampAll(old(a[..]), RINGS)
  {
    hide Marked;
    for i := 0 to RINGS
      invariant a[..] == StampAll(old(a[..]), i)
    {
      WriteMarker(a, SLOT * i);
    }
  }

  /** What StampRing does is what the steps of READY do, in both directions. */
  lemma {:induction false} StampRingIsSteps(way: Way, s: State, n: nat)
    requires |s.mem| == RINGS * SLOT && n <= RINGS
    ensures Run(way, s, RingExact.Stamps(n)) == s.(mem := StampAll(s.mem, n))
  {
    hide Marked, Run, Next, RingExact.Stamps;
    if n > 0 {
      StampRingIsSteps(way, s, n - 1);
      RingExact.LastStamp(way, s, n - 1);
      RingExact.StampIs(way, s.(mem := StampAll(s.mem, n - 1)), n - 1);
    } else {
      RingExact.NoStamps(way, s);
    }
  }

  /** ARM9's end: the two rings and the transmit index. */
  class HostSide {
    const ring: array<Byte>
    const inRing: array<Byte>
    var idx: nat

    constructor ()
      ensures ring.Length == inRing.Length == RINGS * SLOT && ring != inRing && idx == 0
      ensures fresh(ring) && fresh(inRing)
    {
      ring := new Byte[RINGS * SLOT](_ => 0);
      inRing := new Byte[RINGS * SLOT](_ => 0);
      idx := 0;
    }

    /** data_init_bufs, on every READY: both rings, whatever they hold. */
    method InitBufs()
      requires ring.Length == inRing.Length == RINGS * SLOT && ring != inRing
      modifies ring, inRing
      ensures ring[..] == StampAll(old(ring[..]), RINGS) && inRing[..] == StampAll(old(inRing[..]), RINGS)
    {
      StampRing(ring);
      StampRing(inRing);
    }

    /** data_next_buf: a whole slot inside the ring. */
    method NextBuf() returns (slot: nat)
      requires idx < RINGS
      modifies this`idx
      ensures slot == SLOT * old(idx) && idx == (old(idx) + 1) % RINGS
      ensures slot + SLOT <= RINGS * SLOT
    {
      slot := SLOT * idx;
      idx := (idx + 1) % RINGS;
    }

    /** data_send_link: nothing for an empty packet, else the next slot filled
        and one message sent. */
    method SendLink(data: seq<Byte>) returns (msg: Option<Msg>)
      requires ring.Length == RINGS * SLOT && idx < RINGS
      modifies this`idx, ring
      ensures |data| == 0 ==> msg.None? && idx == old(idx) && ring[..] == old(ring[..])
      ensures |data| > 0 ==>
                && msg == Some(Msg(SLOT * old(idx), |Truncated(data)|))
                && idx == (old(idx) + 1) % RINGS
                && SLOT * old(idx) + |Truncated(data)| <= ring.Length
                && ring[..] == Filled(old(ring[..]), SLOT * old(idx), Truncated(data))
    {
      if |data| == 0 {
        return None;
      }
      var len := |data|;
      if len > SLOT {
        len := SLOT;
      }
      assert data[..len] == Truncated(data);
      assert SLOT * idx + SLOT <= RINGS * SLOT;
      var dst := NextBuf();
      forall k | 0 <= k < len {
        ring[dst + k] := data[k];
      }
      assert ring[..] == Filled(old(ring[..]), dst, data[..len]);
      return Some(Msg(dst, len));
    }
  }

  /** What SendLink does is what the producer's steps do when nothing interrupts
      them, for every packet. */
  lemma SendLinkIsSteps(s: State, data: seq<Byte>, reload: bool)
    requires Shape(Tx, s) && |data| > 0
    ensures var d := Truncated(data);
            var it := Item(d, |d|);
            var t := Next(Tx, Run(Tx, Next(Tx, Next(Tx, s, Take(it)), Store(reload)), Copies(|d|)), Send);
            && SLOT * s.idx + |d| <= |s.mem|
            && t.mem == Filled(s.mem, SLOT * s.idx, d) && t.idx == (s.idx + 1) % RINGS && t.fills == s.fills
            && t.queue == s.queue + [Letter(Msg(SLOT * s.idx, |d|), |s.submitted|)]
  {
    var d := Truncated(data);
    SendSteps(s, Item(d, |d|), reload);
    hide Shape, Run, Filled;
  }

  /** ARM7's SENDPKT handler: the slot's bytes go out in a mailbox frame, and
      then the slot is marked. */
  method HandleSendPkt(ring: array<Byte>, out: array<Byte>, msg: Msg) returns (t: MboxFrame.Transfer)
    requires ring != out && out.Length == MboxFrame.BUFFER && msg.len <= SLOT
    requires msg.ptr + SLOT <= ring.Length
    modifies ring, out
    ensures var sent := old(ring[msg.ptr..msg.ptr + Min(msg.len, CLAMP)]);
            t == MboxFrame.Transmit(
                   MboxFrame.PacketBuffer(old(out[..]), DATA_PACKET, 0, MboxFrame.Data(sent), msg.len, BROADCAST),
                   MboxFrame.PacketLength(msg.len))
    ensures ring[..] == Marked(old(ring[..]), msg.ptr)
  {
    var src := MboxFrame.Data(ring[msg.ptr..msg.ptr + Min(msg.len, CLAMP)]);
    t := MboxFrame.SendPacket(out, DATA_PACKET, 0, src, msg.len, BROADCAST);
    WriteMarker(ring, msg.ptr);
  }

  /** data_send_to_lwip: the bytes behind `data` go into a pbuf with `room`
      bytes, if there is one; the slot's marker goes in front of them. */
  method SendToLwip(ring: array<Byte>, data: nat, len0: nat, room: Option<nat>) returns (payload: Option<seq<Byte>>)
    requires 6 <= data && data + CLAMP <= ring.Length
    modifies ring
    ensures payload.None? <==> room.None?
    ensures payload.Some? ==>
              payload.value == old(ring[data..data + Min(Min(len0, CLAMP), room.value)])
    ensures ring[..] == Marked(old(ring[..]), data - 6)
    ensures ring[data..] == old(ring[data..])
  {
    var len := if len0 > CLAMP then CLAMP else len0;
    payload := None;
    if room.Some? {
      if len > room.value {
        len := room.value;
      }
      payload := Some(ring[data..data + len]);
    }
    WriteMarker(ring, data - 6);
  }

  /** The frame that goes out for a delivered packet, whatever was left in the
      mailbox buffer. */
  function FrameFor(out: seq<Byte>, delivered: seq<Byte>, len: U16): (f: seq<Byte>)
    requires |out| == MboxFrame.BUFFER && Min(len, CLAMP) <= |delivered|
  {
    MboxFrame.Transmit(
      MboxFrame.PacketBuffer(out, DATA_PACKET, 0, MboxFrame.Data(delivered), len, BROADCAST),
      MboxFrame.PacketLength(len)).bytes
  }

  /** From end to end: in every careful interleaving, nested sends included, the
      k-th frame transmitted decodes to exactly the bytes of the k-th packet
      announced, as long as they fit a frame at all. */
  lemma EndToEnd(s: State, steps: seq<Step>, k: nat, out: seq<Byte>)
    requires Boot(s) && RingSafety.Careful(Tx, s, steps) && k < |Run(Tx, s, steps).delivered|
    requires |out| == MboxFrame.BUFFER
    ensures var r := Run(Tx, s, steps);
            && k < |r.sent| && r.sent[k] < |r.submitted|
            && var data := r.submitted[r.sent[k]].item.data;
               (|data| <= CLAMP ==>
                  && |r.delivered[k].bytes| == |data|
                  && var f := FrameFor(out, r.delivered[k].bytes, |data|);
                     MboxFrame.Complete(f) && MboxFrame.Kind(f) == DATA_PACKET && MboxFrame.Payload(f) == data)
  {
    RingSafety.TransmittedWhole(s, steps, k);
    var r := Run(Tx, s, steps);
    hide Run, RingSafety.Careful, MboxFrame.PacketBuffer, MboxFrame.PacketLength;
    if |r.submitted[r.sent[k]].item.data| <= CLAMP {
      var data := r.delivered[k].bytes;
      MboxFrame.PacketRoundTrip(out, DATA_PACKET, 0, MboxFrame.Data(data), |data|, BROADCAST);
      assert data[..|data|] == data;
    }
  }

  /** A frame as wifi_card_mbox0_readpkt puts it into a slot, with the length
      data_handle_pkt announces for it. */
  function Received(w: U32, f: seq<Byte>): (it: Item)
    requires MboxRead.Sane(w, f)
  {
    Item(f, Min(MboxRead.LenOf(w) - MboxRead.AckLen(w, f), CLAMP))
  }

  /** Every frame that ARM7 accepts is a submission the rings were proved for. */
  lemma ReceivedFits(w: U32, f: seq<Byte>)
    requires MboxRead.Sane(w, f)
    ensures Fits(Rx, Received(w, f))
  {
    MboxRead.SaneBounds(w, f);
    FrameInSlot(w);
    hide MboxRead.AckLen, MboxRead.LenOf, MboxRead.Sane;
    var n := MboxRead.AckLen(w, f);
    var len := MboxRead.LenOf(w) - n;
    RoundUpGrows(len + 6, MboxRead.LenOf(w) + 6);
    RoundUpGrows(MboxRead.LenOf(w) + 6, len + 6 + 0xFF);
    assert len <= CLAMP;
    hide RoundUpBlock;
  }

  lemma RoundUpGrows(a: nat, b: nat)
    requires a <= b
    ensures RoundUpBlock(a) <= RoundUpBlock(b)
  {}

  lemma FrameInSlot(w: U32)
    requires MboxRead.LenOf(w) <= 0x5FA
    ensures MboxRead.FullLen(w) <= SLOT
  {
    hide MboxRead.LenOf;
  }

  /** The frame that shows a receive slot reused too early is one the read path
      would accept. */
  lemma ClobberIsFrame(b: Byte, i: nat)
    requires i < SLOT
    ensures var f := RingExact.Clobber(Rx, b, i).data;
            var w := MboxRead.HeaderWord(f);
            && MboxRead.Sane(w, f) && MboxRead.IsData(MboxRead.KindOf(w))
            && RingExact.Clobber(Rx, b, i) == Received(w, f)
  {
    hide RingExact.Frame, RingExact.FrameLength, MboxRead.Sane, MboxRead.KindOf, MboxRead.HeaderWord;
    FrameReceived(RingExact.FrameLength(i), (b + 1) % 0x100);
  }

  lemma FrameReceived(n: nat, v: Byte)
    requires 0x80 <= n <= SLOT && n % 0x80 == 0
    ensures var f := RingExact.Frame(n, v);
            var w := MboxRead.HeaderWord(f);
            && MboxRead.Sane(w, f) && MboxRead.IsData(MboxRead.KindOf(w))
            && Received(w, f) == Item(f, n - 6)
  {
    hide RingExact.Frame, RoundUpBlock, MboxRead.HeaderWord, MboxRead.LenOf, MboxRead.KindOf, MboxRead.AckOf;
    var f := RingExact.Frame(n, v);
    FrameHeader(n, v);
    HeaderFields(n);
    var w: U32 := MboxRead.HeaderWord(f);
    assert MboxRead.LenOf(w) == n - 6 && MboxRead.AckOf(w) == 0;
    RingExact.RoundedUp(n);
    assert MboxRead.FullLen(w) == n && MboxRead.AckLen(w, f) == 0;
  }

  lemma HeaderFields(n: nat)
    requires 6 <= n <= SLOT
    ensures var w := 2 + 0x1_0000 * (n - 6);
            MboxRead.KindOf(w) == 2 && MboxRead.AckOf(w) == 0 && MboxRead.LenOf(w) == n - 6
  {}

  lemma FrameHeader(n: nat, v: Byte)
    requires 6 <= n <= SLOT
    ensures MboxRead.HeaderWord(RingExact.Frame(n, v)) == 2 + 0x1_0000 * (n - 6)
  {
    var f, h := RingExact.Frame(n, v), PutLe16(n - 6);
    assert f[..4] == [2, 0] + h;
    assert f[2] == h[0] && f[3] == h[1];
    hide PutLe16;
  }

  /** A data frame as the card sends it is the item of its packet. */
  lemma EncodedReceived(c: MboxDecode.Content)
    requires MboxDecode.Sendable(c)
    ensures var f := MboxDecode.EncodeFrame(c);
            var w := MboxRead.HeaderWord(f);
            MboxRead.Sane(w, f) && Received(w, f) == Item(f, |c.packet|)
  {
    MboxDecode.EncodedHeader(c);
    hide MboxDecode.EncodeFrame, MboxRead.HeaderWord, MboxRead.Sane, MboxRead.LenOf, MboxRead.AckLen;
  }

  /** From the radio to lwIP: for a data frame of any type but 802.1X, ARM7 announces
      the packet it carries, and in every careful interleaving what ARM9 copies is
      the beginning of that packet, all of it where pbuf_alloc gives room. */
  lemma ReceiveEndToEnd(s: State, steps: seq<Step>, i: nat, c: MboxDecode.Content, head: seq<Byte>, snap: seq<Byte>,
                        kind: U16, payload: seq<Byte>, slot: Option<nat>)
    requires Boot(s) && RingSafety.Careful(Rx, s, steps) && i < |Run(Rx, s, steps).delivered|
    requires |head| == 16 && |snap| == 6 && c.packet == MboxDecode.DataPacket(head, snap, kind, payload)
    requires MboxDecode.Sendable(c) && 2 <= c.kind <= 5 && kind != MboxDecode.EAPOL
    requires var r := Run(Rx, s, steps);
             && r.delivered[i].j < |r.submitted|
             && r.submitted[r.delivered[i].j].item == Item(MboxDecode.EncodeFrame(c), |c.packet|)
    ensures var f := MboxDecode.EncodeFrame(c);
            && MboxRead.Sane(MboxRead.HeaderWord(f), f)
            && MboxRead.Dispatch(MboxRead.HeaderWord(f), f, slot) == MboxRead.PktData(slot, c.packet)
    ensures var got := Run(Rx, s, steps).delivered[i].bytes;
            |got| <= |c.packet| && got == c.packet[..|got|]
  {
    RingSafety.DeliveredAsSubmitted(Rx, s, steps);
    var d := Run(Rx, s, steps).delivered[i];
    assert RingSafety.Right(Rx, Run(Rx, s, steps).submitted, d);
    hide Run, RingSafety.Careful;
    MboxDecode.DataDispatch(c, head, snap, kind, payload, slot);
    MboxDecode.FrameParts(c);
    hide MboxDecode.EncodeFrame, MboxRead.Sane, MboxRead.Dispatch, MboxRead.HeaderWord, MboxDecode.DataPacket;
    StartOfPacket(MboxDecode.EncodeFrame(c), c.packet, d.bytes);
  }

  lemma StartOfPacket(f: seq<Byte>, packet: seq<Byte>, got: seq<Byte>)
    requires 6 + |packet| <= |f| && f[6..6 + |packet|] == packet && |got| <= |packet| && got == f[6..6 + |got|]
    ensures got == packet[..|got|]
  {
    assert f[6..6 + |packet|][..|got|] == f[6..6 + |got|];
  }

  /** The index and the slot that ARM7's data_next_buf uses are those of the ring. */
  lemma TakenIsStep(d: MboxRead.Driver, s: State, w: U32, f: seq<Byte>, reload: bool)
    requires MboxRead.Sane(w, f) && MboxRead.IsData(MboxRead.KindOf(w))
    requires d.slots == MboxRead.SLOTS && d.idx == s.idx < RINGS && s.fills == []
    ensures var t := Next(Rx, Next(Rx, s, Take(Received(w, f))), Store(reload));
            && t.idx == MboxRead.Taken(d, w, f).idx && |t.submitted| == |s.submitted| + 1
            && MboxRead.SlotFor(d.slots, d.idx, w) == Some(s.idx)
            && t.submitted[|s.submitted|] == Entry(Received(w, f), SLOT * s.idx)
  {
    ReceivedFits(w, f);
    hide MboxRead.Sane, Fits, MboxRead.KindOf, Received, MboxRead.Dispatch;
  }
}
