/** Outgoing mailbox frames: wifi_card_mbox0_send_packet, wmi_send_pkt,
    wifi_card_mbox0_sendbytes and wifi_card_write_func1_block of
    arm_iop/source/wifi_card.twl.c. Decoding uses the field layout that
    wifi_card_mbox0_readpkt applies to what it receives. */
module MboxFrame {
  import opened Words

  const BUFFER := 0x600  // MBOX_TMPBUF_SIZE

  /** A pointer that may be NULL, with the bytes behind it. */
  datatype Source = Null | Data(bytes: seq<Byte>)

  /** One block write: first address of the mailbox window, block count and
      the bytes on the wire. */
  datatype Transfer = Transfer(addr: U16, blocks: Byte, bytes: seq<Byte>)

  /** wifi_card_mbox0_sendbytes and wifi_card_write_func1_block: the window ends
      at 0x3FFF, and the block count is an 8-bit field. */
  function Transmit(buf: seq<Byte>, n: nat): (t: Transfer)
    requires n <= |buf|
  {
    Transfer((0x4000 - n) % 0x1_0000, n / 0x80 % 0x100, buf[..n])
  }

  /** `src` over the bytes at `at`, or the old bytes where there is no source. */
  function Overlay(buf: seq<Byte>, at: nat, src: Source, n: nat): (r: seq<Byte>)
    requires at + n <= |buf| && (src.Data? ==> n <= |src.bytes|)
    ensures |r| == |buf|
  {
    if src.Null? then buf else buf[..at] + src.bytes[..n] + buf[at + n..]
  }

  function PacketHead(kind: Byte, ack: Byte, len: U16, idk: U16): (h: seq<Byte>)
    ensures |h| == 6
  {
    [kind, ack] + PutLe16(len) + PutLe16(idk)
  }

  function WmiHead(cmd: U16, ack: Byte, len: U16, idk: U16): (h: seq<Byte>)
    ensures |h| == 8
  {
    [1, ack] + PutLe16((len + 2) % 0x1_0000) + PutLe16(idk) + PutLe16(cmd)
  }

  /** The buffer wifi_card_mbox0_send_packet leaves behind. The length field
      keeps the length asked for, even where the payload is cut. */
  function PacketBuffer(buf: seq<Byte>, kind: Byte, ack: Byte, src: Source, len: U16, idk: U16): (r: seq<Byte>)
    requires |buf| == BUFFER && (src.Data? ==> Min(len, BUFFER - 6) <= |src.bytes|)
    ensures |r| == BUFFER
  {
    Overlay(PacketHead(kind, ack, len, idk) + buf[6..], 6, src, Min(len, BUFFER - 6))
  }

  function PacketLength(len: U16): (n: nat)
    ensures n <= BUFFER
  {
    RoundUpBlock(Min(len, BUFFER - 6) + 6)
  }

  /** wmi_send_pkt, likewise; its length field counts the command word and is
      16 bits wide. */
  function WmiBuffer(buf: seq<Byte>, cmd: U16, ack: Byte, src: Source, len: U16, idk: U16): (r: seq<Byte>)
    requires |buf| == BUFFER && (src.Data? ==> Min(len, BUFFER - 8) <= |src.bytes|)
    ensures |r| == BUFFER
  {
    Overlay(WmiHead(cmd, ack, len, idk) + buf[8..], 8, src, Min(len, BUFFER - 8))
  }

  function WmiLength(len: U16): (n: nat)
    ensures n <= BUFFER
  {
    RoundUpBlock(Min(len, BUFFER - 8) + 8)
  }

  // The receiver's view.

  function Kind(f: seq<Byte>): (k: Byte) requires |f| >= 0x80 { f[0] }

  function Ack(f: seq<Byte>): (k: Byte) requires |f| >= 0x80 { f[1] }

  function Declared(f: seq<Byte>): (n: U16) requires |f| >= 0x80 { Le16(f[2], f[3]) }

  /** The last two header bytes, whose meaning the driver's authors leave open. */
  function Extra(f: seq<Byte>): (n: U16) requires |f| >= 0x80 { Le16(f[4], f[5]) }

  function Command(f: seq<Byte>): (c: U16) requires |f| >= 0x80 { Le16(f[6], f[7]) }

  /** The frame holds all the bytes its length field declares. */
  predicate Complete(f: seq<Byte>) {
    |f| >= 0x80 && 6 + Declared(f) <= |f|
  }

  function Payload(f: seq<Byte>): (s: seq<Byte>)
    requires Complete(f)
  {
    f[6..6 + Declared(f)]
  }

  /** For every input the transfer is the least whole number of 0x80-byte blocks that
      holds header and payload, at least one and at most the buffer; the block count loses nothing and the
      last byte lands on 0x3FFF, which is what ends a mailbox message. */
  lemma TransferShape(buf: seq<Byte>, len: U16, wmi: bool)
    requires |buf| == BUFFER
    ensures var n := if wmi then WmiLength(len) else PacketLength(len);
            var t := Transmit(buf, n);
            var used := if wmi then Min(len, BUFFER - 8) + 8 else Min(len, BUFFER - 6) + 6;
            && 0x80 <= n <= BUFFER && n % 0x80 == 0 && |t.bytes| == n && used <= n < used + 0x80
            && t.blocks * 0x80 == n && t.addr + n - 1 == 0x3FFF
  {
    var n := if wmi then WmiLength(len) else PacketLength(len);
    PacketRounds(len);
    hide PacketLength, WmiLength, RoundUpBlock;
    assert n / 0x80 * 0x80 == n;
  }

  lemma PacketRounds(len: U16)
    ensures 0x80 <= PacketLength(len) && PacketLength(len) % 0x80 == 0
    ensures 0x80 <= WmiLength(len) && WmiLength(len) % 0x80 == 0
    ensures Min(len, BUFFER - 6) + 6 <= PacketLength(len) < Min(len, BUFFER - 6) + 6 + 0x80
    ensures Min(len, BUFFER - 8) + 8 <= WmiLength(len) < Min(len, BUFFER - 8) + 8 + 0x80
  {}

  /** The bytes a payload of `n` at `at` is to consist of: the source's, or what the
      buffer held where there is none. */
  function PayloadOf(buf: seq<Byte>, at: nat, src: Source, n: nat): (s: seq<Byte>)
    requires at + n <= |buf| && (src.Data? ==> n <= |src.bytes|)
    ensures |s| == n
  {
    if src.Null? then buf[at..at + n] else src.bytes[..n]
  }

  lemma OverlayBytes(b: seq<Byte>, at: nat, src: Source, n: nat)
    requires at + n <= |b| && (src.Data? ==> n <= |src.bytes|)
    ensures var w := Overlay(b, at, src, n);
            && w[..at] == b[..at] && w[at..at + n] == PayloadOf(b, at, src, n) && w[at + n..] == b[at + n..]
  {}

  /** Header, payload and, behind it, the buffer as it was, with or without a source. */
  lemma PacketBytes(buf: seq<Byte>, kind: Byte, ack: Byte, src: Source, len: U16, idk: U16)
    requires |buf| == BUFFER && (src.Data? ==> Min(len, BUFFER - 6) <= |src.bytes|)
    ensures var w := PacketBuffer(buf, kind, ack, src, len, idk);
            var n := Min(len, BUFFER - 6);
            && w[0] == kind && w[1] == ack && Le16(w[2], w[3]) == len && Le16(w[4], w[5]) == idk
            && w[6..6 + n] == PayloadOf(buf, 6, src, n) && w[6 + n..] == buf[6 + n..]
  {
    var h, e := PutLe16(len), PutLe16(idk);
    hide PutLe16, Le16;
    var b := PacketHead(kind, ack, len, idk) + buf[6..];
    var n := Min(len, BUFFER - 6);
    OverlayBytes(b, 6, src, n);
    assert b[6..] == buf[6..] && b[6..6 + n] == buf[6..6 + n] && b[6 + n..] == buf[6 + n..];
    var w := PacketBuffer(buf, kind, ack, src, len, idk);
    assert b[..6] == [kind, ack, h[0], h[1], e[0], e[1]];
    hide Overlay, PacketBuffer;
    HeadOf(w, [kind, ack, h[0], h[1], e[0], e[1]]);
  }

  lemma HeadOf(w: seq<Byte>, h: seq<Byte>)
    requires |h| <= |w| && w[..|h|] == h
    ensures forall k :: 0 <= k < |h| ==> w[k] == h[k]
  {}

  lemma SameSlice(w: seq<Byte>, n: nat, i: nat, j: nat)
    requires i <= j <= n <= |w|
    ensures w[..n][i..j] == w[i..j]
  {}

  lemma PacketDeclares(len: U16)
    ensures 0x80 <= PacketLength(len) && (6 + len <= PacketLength(len) <==> len <= BUFFER - 6)
  {
    PacketRounds(len);
    hide PacketLength;
  }

  /** A receiver recovers every field asked for, whether there is a source or not, and
      the payload where it fits; the frame is complete exactly when it does. */
  lemma PacketRoundTrip(buf: seq<Byte>, kind: Byte, ack: Byte, src: Source, len: U16, idk: U16)
    requires |buf| == BUFFER && (src.Data? ==> Min(len, BUFFER - 6) <= |src.bytes|)
    ensures var f := Transmit(PacketBuffer(buf, kind, ack, src, len, idk), PacketLength(len)).bytes;
            && |f| >= 0x80 && Kind(f) == kind && Ack(f) == ack && Declared(f) == len && Extra(f) == idk
            && (Complete(f) <==> len <= BUFFER - 6)
            && (Complete(f) ==> Payload(f) == PayloadOf(buf, 6, src, len))
  {
    PacketDeclares(len);
    PacketBytes(buf, kind, ack, src, len, idk);
    hide PacketLength, Le16, PacketBuffer, PayloadOf;
    var w := PacketBuffer(buf, kind, ack, src, len, idk);
    var f := w[..PacketLength(len)];
    assert f[0] == w[0] && f[1] == w[1] && f[2] == w[2] && f[3] == w[3] && f[4] == w[4] && f[5] == w[5];
    if len <= BUFFER - 6 {
      SameSlice(w, |f|, 6, 6 + len);
    }
  }

  lemma WmiBytes(buf: seq<Byte>, cmd: U16, ack: Byte, src: Source, len: U16, idk: U16)
    requires |buf| == BUFFER && (src.Data? ==> Min(len, BUFFER - 8) <= |src.bytes|)
    ensures var w := WmiBuffer(buf, cmd, ack, src, len, idk);
            var n := Min(len, BUFFER - 8);
            && w[0] == 1 && w[1] == ack && Le16(w[2], w[3]) == (len + 2) % 0x1_0000
            && Le16(w[4], w[5]) == idk && w[6..8] == PutLe16(cmd)
            && w[8..8 + n] == PayloadOf(buf, 8, src, n) && w[8 + n..] == buf[8 + n..]
  {
    var h, e, c := PutLe16((len + 2) % 0x1_0000), PutLe16(idk), PutLe16(cmd);
    hide PutLe16, Le16;
    var b := WmiHead(cmd, ack, len, idk) + buf[8..];
    var n := Min(len, BUFFER - 8);
    OverlayBytes(b, 8, src, n);
    assert b[8..] == buf[8..] && b[8..8 + n] == buf[8..8 + n] && b[8 + n..] == buf[8 + n..];
    var w := WmiBuffer(buf, cmd, ack, src, len, idk);
    assert b[..8] == [1, ack, h[0], h[1], e[0], e[1], c[0], c[1]];
    hide Overlay, WmiBuffer;
    HeadOf(w, [1, ack, h[0], h[1], e[0], e[1], c[0], c[1]]);
    assert w[6..8] == c;
  }

  /** The same for commands; a command without a body is complete and consists of
      its command word, whatever was in the buffer. */
  lemma WmiRoundTrip(buf: seq<Byte>, cmd: U16, ack: Byte, src: Source, len: U16, idk: U16)
    requires |buf| == BUFFER && (src.Data? ==> Min(len, BUFFER - 8) <= |src.bytes|)
    ensures var f := Transmit(WmiBuffer(buf, cmd, ack, src, len, idk), WmiLength(len)).bytes;
            && |f| >= 0x80 && Kind(f) == 1 && Ack(f) == ack && Command(f) == cmd && Extra(f) == idk
            && Declared(f) == (len + 2) % 0x1_0000
            && (Complete(f) && Declared(f) == len + 2 <==> len <= BUFFER - 8)
            && (len <= BUFFER - 8 ==> Payload(f) == PutLe16(cmd) + PayloadOf(buf, 8, src, len))
            && (len == 0 ==> Payload(f) == PutLe16(cmd))
  {
    WmiDeclares(len);
    WmiBytes(buf, cmd, ack, src, len, idk);
    assert Le16(PutLe16(cmd)[0], PutLe16(cmd)[1]) == cmd;
    hide WmiLength, Le16, WmiBuffer, PayloadOf, PutLe16;
    var w := WmiBuffer(buf, cmd, ack, src, len, idk);
    var f := w[..WmiLength(len)];
    assert f[0] == w[0] && f[1] == w[1] && f[2] == w[2] && f[3] == w[3] && f[4] == w[4] && f[5] == w[5];
    assert f[6] == w[6..8][0] && f[7] == w[6..8][1];
    if len <= BUFFER - 8 {
      SameSlice(w, |f|, 6, 8 + len);
      assert w[6..8 + len] == w[6..8] + w[8..8 + len];
      assert len == 0 ==> PutLe16(cmd) + PayloadOf(buf, 8, src, len) == PutLe16(cmd);
    }
  }

  lemma WmiDeclares(len: U16)
    ensures var d := (len + 2) % 0x1_0000;
            6 + d <= WmiLength(len) && d == len + 2 <==> len <= BUFFER - 8
    ensures 0x80 <= WmiLength(len)
  {
    PacketRounds(len);
    hide WmiLength;
  }

  /** memcpy into the buffer, skipped for a NULL source. */
  method CopyInto(out: array<Byte>, at: nat, src: Source, n: nat)
    requires at + n <= out.Length && (src.Data? ==> n <= |src.bytes|)
    modifies out
    ensures out[..] == Overlay(old(out[..]), at, src, n)
  {
    if src.Data? {
      forall k | 0 <= k < n {
        out[at + k] := src.bytes[k];
      }
    }
  }

  /** The header fields, stored at the front of the buffer. */
  method PutHeader(out: array<Byte>, head: seq<Byte>)
    requires |head| <= out.Length
    modifies out
    ensures out[..] == head + old(out[..])[|head|..]
  {
    forall k | 0 <= k < |head| {
      out[k] := head[k];
    }
  }

  /** wifi_card_mbox0_send_packet: fills the shared buffer in place and sends it. */
  method SendPacket(out: array<Byte>, kind: Byte, ack: Byte, src: Source, len0: U16, idk: U16)
    returns (t: Transfer)
    requires out.Length == BUFFER && (src.Data? ==> Min(len0, BUFFER - 6) <= |src.bytes|)
    modifies out
    ensures out[..] == PacketBuffer(old(out[..]), kind, ack, src, len0, idk)
    ensures t == Transmit(out[..], PacketLength(len0))
  {
    hide RoundUpBlock, Overlay, PacketHead;
    PutHeader(out, PacketHead(kind, ack, len0, idk));
    var len: nat := if len0 > BUFFER - 6 then BUFFER - 6 else len0;
    CopyInto(out, 6, src, len);
    len := RoundUpBlock(len + 6);
    t := Transmit(out[..], len);
  }

  /** wmi_send_pkt. */
  method SendWmi(out: array<Byte>, cmd: U16, ack: Byte, src: Source, len0: U16, idk: U16)
    returns (t: Transfer)
    requires out.Length == BUFFER && (src.Data? ==> Min(len0, BUFFER - 8) <= |src.bytes|)
    modifies out
    ensures out[..] == WmiBuffer(old(out[..]), cmd, ack, src, len0, idk)
    ensures t == Transmit(out[..], WmiLength(len0))
  {
    hide RoundUpBlock, Overlay, WmiHead;
    PutHeader(out, WmiHead(cmd, ack, len0, idk));
    var len: nat := if len0 > BUFFER - 8 then BUFFER - 8 else len0;
    CopyInto(out, 8, src, len);
    len := RoundUpBlock(len + 8);
    t := Transmit(out[..], len);
  }
}
