/** What the read path makes of a frame, from the sender's side: frames are put
    together field by field, and reading them gives the fields back
    (wifi_card_mbox0_readpkt and data_handle_pkt of
    arm_iop/source/wifi_card.twl.c). */
module MboxDecode {
  import opened Words
  import opened MboxTrailer
  import opened MboxRead

  /** What a frame carries: its kind, the ack flag, what stands in the trailer-length
      field when there is no ack, an unused byte, the packet and the trailer. */
  datatype Content = Content(kind: Byte, ack: Byte, junk: Byte, spare: Byte, packet: seq<Byte>, trailer: seq<Byte>)

  /** It fits a receive buffer, and a trailer goes with an ack flag. */
  predicate Sendable(c: Content) {
    |c.packet| + |c.trailer| <= 0x5FA && |c.trailer| <= 0xFF && (|c.trailer| > 0 ==> c.ack != 0)
  }

  function Size(c: Content): (n: nat) { |c.packet| + |c.trailer| }

  function Prefix(c: Content): (h: seq<Byte>)
    requires Sendable(c)
    ensures |h| == 6
  {
    [c.kind, c.ack] + PutLe16(Size(c)) + [if c.ack == 0 then c.junk else |c.trailer|, c.spare]
  }

  /** The frame, padded to whole blocks. */
  function EncodeFrame(c: Content): (f: seq<Byte>)
    requires Sendable(c)
    ensures |f| == RoundUpBlock(Size(c) + 6) && |f| >= 0x80
  {
    Prefix(c) + c.packet + c.trailer + seq(RoundUpBlock(Size(c) + 6) - 6 - Size(c), _ => 0)
  }

  lemma WordFields(k: Byte, a: Byte, n: U16)
    ensures var w := Le32(k, a, PutLe16(n)[0], PutLe16(n)[1]);
            KindOf(w) == k && AckOf(w) == a && LenOf(w) == n
  {
    var h := PutLe16(n);
    assert Le16(h[0], h[1]) == n;
    hide PutLe16;
    var w := Le32(k, a, h[0], h[1]);
    assert w == (k as int) + 0x100 * (a as int) + 0x1_0000 * n;
  }

  lemma FrameParts(c: Content)
    requires Sendable(c)
    ensures var f := EncodeFrame(c);
            && |f| >= 0x80 && f[..6] == Prefix(c) && f[6..6 + |c.packet|] == c.packet
            && f[6 + |c.packet|..6 + Size(c)] == c.trailer
  {
    hide Prefix;
    var f, h := EncodeFrame(c), Prefix(c);
    var pad: seq<Byte> := seq(RoundUpBlock(Size(c) + 6) - 6 - Size(c), _ => 0);
    hide RoundUpBlock, EncodeFrame;
    assert f == h + c.packet + c.trailer + pad;
  }

  lemma PrefixBytes(c: Content)
    requires Sendable(c)
    ensures var f, h := EncodeFrame(c), PutLe16(Size(c));
            && |f| >= 0x80 && f[0] == c.kind && f[1] == c.ack && f[2] == h[0] && f[3] == h[1]
            && (c.ack != 0 ==> f[4] == |c.trailer|)
  {
    FrameParts(c);
    var f, p, h := EncodeFrame(c), Prefix(c), PutLe16(Size(c));
    hide EncodeFrame, PutLe16;
    assert p[0] == c.kind && p[1] == c.ack && p[2] == h[0] && p[3] == h[1] && (c.ack != 0 ==> p[4] == |c.trailer|);
    hide Prefix;
    assert forall k :: 0 <= k < 6 ==> f[k] == f[..6][k] == p[k];
  }

  /** The header word and what is derived from it are the sender's. */
  lemma EncodedHeader(c: Content)
    requires Sendable(c)
    ensures var f := EncodeFrame(c);
            var w := HeaderWord(f);
            && KindOf(w) == c.kind && LenOf(w) == Size(c) && |f| == FullLen(w)
            && |f| >= 0x80 && AckLen(w, f) == |c.trailer| && Sane(w, f)
  {
    PrefixBytes(c);
    WordFields(c.kind, c.ack, Size(c));
    var f := EncodeFrame(c);
    hide EncodeFrame, PutLe16, Le32, KindOf, LenOf, AckOf;
    assert Pad(f, 4) == f[..4];
    assert HeaderWord(f) == Le32(c.kind, c.ack, PutLe16(Size(c))[0], PutLe16(Size(c))[1]);
  }

  /** The frame's handler will read more frames. */
  predicate ReadsOn(c: Content)
    requires Sendable(c)
  {
    IsReady(HeaderWord(EncodeFrame(c)), EncodeFrame(c))
  }

  /** The driver is about to read `c`, by register or with the right word cached. */
  predicate AboutTo(d: Driver, c: Content, rest: seq<Byte>, cached: bool)
    requires Sendable(c)
  {
    d.stream == EncodeFrame(c) + rest && (cached && d.has ==> d.word == HeaderWord(EncodeFrame(c)))
  }

  lemma ReadsFrame(d: Driver, c: Content, rest: seq<Byte>, cached: bool)
    requires Sendable(c) && AboutTo(d, c, rest, cached)
    ensures var f := EncodeFrame(c);
            var w := HeaderWord(f);
            && d.stream != [] && Header(d, cached) == w && Pad(d.stream, FullLen(w)) == f
            && Drop(d.stream, |f|) == rest && Sane(w, f)
  {
    EncodedHeader(c);
    var f := EncodeFrame(c);
    assert HeaderWord(d.stream) == HeaderWord(f) by { HeadOfStream([f, rest]); JoinTwo(f, rest); }
    hide EncodeFrame, HeaderWord, Sane, FullLen, KindOf, LenOf, AckLen;
    assert (f + rest)[..|f|] == f && (f + rest)[|f|..] == rest;
  }

  lemma JoinTwo(f: seq<Byte>, rest: seq<Byte>)
    ensures Flatten([f, rest]) == f + rest
  {
    assert [f, rest][1..] == [rest] && [rest][1..] == [];
    assert Flatten([rest]) == rest + [];
  }

  /** A frame whose handler reads nothing: it is taken off the FIFO and logged once,
      and what its trailer says is cached. */
  lemma FrameRead(d: Driver, c: Content, rest: seq<Byte>, cached: bool)
    requires Sendable(c) && AboutTo(d, c, rest, cached)
    requires !ReadsOn(c)
    ensures var f := EncodeFrame(c);
            var w := HeaderWord(f);
            var slot := if d.slots > 0 && 2 <= c.kind <= 5 then Some(d.idx) else None;
            var r := ReadOnce(d, cached);
            && Sane(w, f) && r.log == d.log + [Dispatch(w, f, slot)] && r.stream == rest && r.slots == d.slots
            && r.idx == (if slot.Some? then NextIdx(d.idx, d.slots) else d.idx)
            && r.buf == (if slot.Some? then d.buf else f + Drop(d.buf, |f|))
  {
    hide EncodeFrame, HeaderWord, Sane, FullLen, KindOf, LenOf, AckLen, Late, Pad, Drop, Dispatch, IsReady, NextIdx;
    ReadsFrame(d, c, rest, cached);
    EncodedHeader(c);
    var f := EncodeFrame(c);
    var w := HeaderWord(f);
    assert ReadOnce(d, cached) == Ended(Taken(d, w, f), w, f);
    hide ReadOnce, ReadMany;
  }

  // Data frames.

  /** What data_handle_pkt is given: 16 bytes of header (signal strength, the two
      addresses, a length), 6 bytes of SNAP header, the type, and the payload. */
  function DataPacket(head: seq<Byte>, snap: seq<Byte>, kind: U16, payload: seq<Byte>): (p: seq<Byte>)
    requires |head| == 16 && |snap| == 6
    ensures |p| == 24 + |payload|
  {
    head + snap + [kind / 0x100, kind % 0x100] + payload
  }

  const EAPOL := 0x888E

  lemma PacketType(head: seq<Byte>, snap: seq<Byte>, kind: U16, payload: seq<Byte>)
    requires |head| == 16 && |snap| == 6
    ensures var p := DataPacket(head, snap, kind, payload);
            && (p[22] == 0x88 && p[23] == 0x8E <==> kind == EAPOL) && p[24..] == payload
  {
    var p := DataPacket(head, snap, kind, payload);
    assert p[22] == kind / 0x100 && p[23] == kind % 0x100;
  }

  /** What the driver does with a data frame depends on its type alone: 802.1X goes to
      the supplicant with exactly its payload, everything else to ARM9 with exactly
      its packet. */
  lemma DataFrameRead(d: Driver, c: Content, head: seq<Byte>, snap: seq<Byte>, kind: U16, payload: seq<Byte>,
                      rest: seq<Byte>, cached: bool)
    requires |head| == 16 && |snap| == 6 && c.packet == DataPacket(head, snap, kind, payload)
    requires Sendable(c) && 2 <= c.kind <= 5 && AboutTo(d, c, rest, cached)
    ensures var slot := if d.slots > 0 then Some(d.idx) else None;
            var r := ReadOnce(d, cached);
            && r.stream == rest
            && r.log == d.log + [if kind == EAPOL then Auth(slot, payload, |payload|) else PktData(slot, c.packet)]
  {
    EncodedHeader(c);
    var slot := if d.slots > 0 then Some(d.idx) else None;
    DataDispatch(c, head, snap, kind, payload, slot);
    hide EncodeFrame, HeaderWord, Sane, DataPacket, Dispatch;
    FrameRead(d, c, rest, cached);
  }

  lemma DataDispatch(c: Content, head: seq<Byte>, snap: seq<Byte>, kind: U16, payload: seq<Byte>, slot: Option<nat>)
    requires |head| == 16 && |snap| == 6 && c.packet == DataPacket(head, snap, kind, payload)
    requires Sendable(c) && 2 <= c.kind <= 5
    ensures var f := EncodeFrame(c);
            Sane(HeaderWord(f), f) &&
            Dispatch(HeaderWord(f), f, slot) ==
            if kind == EAPOL then Auth(slot, payload, |payload|) else PktData(slot, c.packet)
  {
    EncodedHeader(c);
    FrameParts(c);
    PacketType(head, snap, kind, payload);
    hide EncodeFrame, HeaderWord, Sane, DataPacket, KindOf, LenOf, AckLen, FullLen, Dispatch;
    DispatchData(HeaderWord(EncodeFrame(c)), EncodeFrame(c), c.packet, slot);
  }

  /** Dispatch of a data frame looks at the packet only. */
  lemma DispatchData(w: U32, f: seq<Byte>, packet: seq<Byte>, slot: Option<nat>)
    requires Sane(w, f) && 2 <= KindOf(w) <= 5 && LenOf(w) - AckLen(w, f) == |packet| >= 24
    requires 6 + |packet| <= |f| && f[6..6 + |packet|] == packet
    ensures Dispatch(w, f, slot) ==
            if packet[22] == 0x88 && packet[23] == 0x8E then Auth(slot, packet[24..], |packet| - 24)
            else PktData(slot, packet)
  {
    SaneBounds(w, f);
    var n := |packet|;
    assert n <= 0x5FA;
    assert Dispatch(w, f, slot) == DataEvent(slot, f, n) by { hide DataEvent, LenOf, AckLen, Sane, Le16; }
    hide Dispatch, Sane, KindOf, LenOf, AckLen;
    assert f[28] == packet[22] && f[29] == packet[23];
    assert f[30..6 + n] == packet[24..];
  }

  // Command frames.

  /** HTC and WMI frames give back their command word and body; an HTC READY frame is
      logged like that before its handler reads on. */
  lemma CommandFrameRead(d: Driver, c: Content, cmd: U16, body: seq<Byte>, rest: seq<Byte>, cached: bool)
    requires Sendable(c) && c.kind <= 1 && c.packet == PutLe16(cmd) + body && AboutTo(d, c, rest, cached)
    ensures var e := if c.kind == 0 then Htc(cmd, body, |body|, |c.trailer|) else Wmi(cmd, body, |body|, |c.trailer|);
            var r := ReadOnce(d, cached);
            && |r.log| > |d.log| && r.log[..|d.log| + 1] == d.log + [e]
            && (c.kind == 1 || cmd != 1 ==> r.log == d.log + [e] && r.stream == rest && r.idx == d.idx)
  {
    CommandDispatch(c, cmd, body, None);
    EncodedHeader(c);
    ReadsFrame(d, c, rest, cached);
    var f := EncodeFrame(c);
    var w := HeaderWord(f);
    if IsReady(w, f) {
      ReadyReads(d, w, f, cached);
      hide EncodeFrame, HeaderWord, Sane, Dispatch, ReadOnce;
    } else {
      hide EncodeFrame, HeaderWord, Sane, Dispatch;
      FrameRead(d, c, rest, cached);
    }
  }

  lemma CommandDispatch(c: Content, cmd: U16, body: seq<Byte>, slot: Option<nat>)
    requires Sendable(c) && c.kind <= 1 && c.packet == PutLe16(cmd) + body
    ensures var f := EncodeFrame(c);
            && Sane(HeaderWord(f), f) && |f| >= 0x80
            && Dispatch(HeaderWord(f), f, slot) ==
               (if c.kind == 0 then Htc(cmd, body, |body|, |c.trailer|) else Wmi(cmd, body, |body|, |c.trailer|))
            && (IsReady(HeaderWord(f), f) <==> c.kind == 0 && cmd == 1)
  {
    EncodedHeader(c);
    FrameParts(c);
    hide EncodeFrame, HeaderWord, Sane, KindOf, LenOf, AckLen, FullLen, Dispatch, PutLe16;
    DispatchCommand(HeaderWord(EncodeFrame(c)), EncodeFrame(c), cmd, body, slot);
  }

  /** Dispatch of a command frame looks at the packet only. */
  lemma DispatchCommand(w: U32, f: seq<Byte>, cmd: U16, body: seq<Byte>, slot: Option<nat>)
    requires Sane(w, f) && KindOf(w) <= 1 && LenOf(w) - AckLen(w, f) == |body| + 2
    requires 8 + |body| <= |f| && |f| >= 0x80 && f[6..8 + |body|] == PutLe16(cmd) + body
    ensures Dispatch(w, f, slot) ==
            if KindOf(w) == 0 then Htc(cmd, body, |body|, AckLen(w, f)) else Wmi(cmd, body, |body|, AckLen(w, f))
    ensures IsReady(w, f) <==> KindOf(w) == 0 && cmd == 1
  {
    var h, p := PutLe16(cmd), f[6..8 + |body|];
    assert Le16(h[0], h[1]) == cmd;
    hide PutLe16, KindOf, LenOf, AckLen, Sane, Le16;
    assert f[6] == p[0] == h[0] && f[7] == p[1] == h[1];
    assert f[8..8 + |body|] == p[2..] == body;
  }

  /** A packet too short for a command word: the length handed on wraps around. */
  lemma ShortCommandRead(c: Content, slot: Option<nat>)
    requires Sendable(c) && c.kind <= 1 && |c.packet| < 2
    ensures var f := EncodeFrame(c);
            Sane(HeaderWord(f), f) &&
            var e := Dispatch(HeaderWord(f), f, slot);
            if c.kind == 0 then e.Htc? && e.body == [] && e.len == 0xFFFF_FFFE + |c.packet|
            else e.Wmi? && e.body == [] && e.len == 0xFFFF_FFFE + |c.packet|
  {
    hide EncodeFrame, HeaderWord, Sane, KindOf, LenOf, AckLen, FullLen, Dispatch;
    EncodedHeader(c);
    DispatchShort(HeaderWord(EncodeFrame(c)), EncodeFrame(c), |c.packet|, slot);
  }

  lemma DispatchShort(w: U32, f: seq<Byte>, n: nat, slot: Option<nat>)
    requires Sane(w, f) && KindOf(w) <= 1 && LenOf(w) - AckLen(w, f) == n < 2
    ensures var e := Dispatch(w, f, slot);
            if KindOf(w) == 0 then e.Htc? && e.body == [] && e.len == 0xFFFF_FFFE + n
            else e.Wmi? && e.body == [] && e.len == 0xFFFF_FFFE + n
  {
    hide KindOf, LenOf, AckLen, Le16, FullLen, DataEvent;
  }

  /** The log only grows. */
  lemma {:induction false} LogGrows(d: Driver, cached: bool)
    ensures |d.log| <= |ReadOnce(d, cached).log| && ReadOnce(d, cached).log[..|d.log|] == d.log
    decreases |d.stream|, 0
  {
    hide Sane, HeaderWord, Dispatch, Late, Pad, FullLen, IsReady;
    var w := Header(d, cached);
    var f := Pad(d.stream, FullLen(w));
    if d.stream != [] && Sane(w, f) && IsReady(w, f) {
      var d1 := Taken(d, w, f);
      ManyLogsGrow(d1, SERVICES, cached);
      assert d1.log[..|d.log|] == d.log;
      assert ReadMany(d1, SERVICES, cached).log[..|d1.log|][..|d.log|] == ReadMany(d1, SERVICES, cached).log[..|d.log|];
      hide ReadMany;
    }
  }

  lemma {:induction false} ManyLogsGrow(d: Driver, n: nat, cached: bool)
    ensures |d.log| <= |ReadMany(d, n, cached).log| && ReadMany(d, n, cached).log[..|d.log|] == d.log
    decreases |d.stream|, n + 1
  {
    hide ReadOnce;
    if n > 0 {
      var e := ReadOnce(d, cached);
      LogGrows(d, cached);
      ManyLogsGrow(e, n - 1, cached);
      var r := ReadMany(e, n - 1, cached);
      assert r.log[..|e.log|][..|d.log|] == r.log[..|d.log|];
    }
  }

  lemma ReadyReads(d: Driver, w: U32, f: seq<Byte>, cached: bool)
    requires d.stream != [] && Header(d, cached) == w && Pad(d.stream, FullLen(w)) == f && Sane(w, f) && IsReady(w, f)
    ensures var r := ReadOnce(d, cached);
            |r.log| > |d.log| && r.log[..|d.log| + 1] == d.log + [Dispatch(w, f, None)]
  {
    var d1 := Taken(d, w, f);
    assert SlotFor(d.slots, d.idx, w).None?;
    ManyLogsGrow(d1, SERVICES, cached);
    hide Sane, HeaderWord, Dispatch, Late, Pad, FullLen, IsReady, ReadMany;
    assert d1.log == d.log + [Dispatch(w, f, None)];
  }

  /** Any other kind is only reported. */
  lemma OtherFrameRead(d: Driver, c: Content, rest: seq<Byte>, cached: bool)
    requires Sendable(c) && c.kind > 5 && AboutTo(d, c, rest, cached)
    ensures var r := ReadOnce(d, cached);
            r.log == d.log + [Unknown(c.kind)] && r.stream == rest && r.idx == d.idx
  {
    EncodedHeader(c);
    FrameRead(d, c, rest, cached);
    hide EncodeFrame, HeaderWord, Sane, KindOf, LenOf, AckLen, ReadOnce, Le16;
  }

  // Trailers.

  /** The trailer's first lookahead record, and nothing else, is what the next read
      will find cached. */
  lemma TrailerRead(d: Driver, c: Content, rs: seq<Tlv>, rest: seq<Byte>, cached: bool)
    requires forall i :: 0 <= i < |rs| ==> |rs[i].body| <= 0xFF
    requires Sendable(c) && c.trailer == Encode(rs) && AboutTo(d, c, rest, cached)
    requires !ReadsOn(c)
    ensures var r := ReadOnce(d, cached);
            r.has == FirstLookahead(rs).Some? && (r.has ==> r.word == FirstLookahead(rs).value)
  {
    var f := EncodeFrame(c);
    var w := HeaderWord(f);
    ReadsFrame(d, c, rest, cached);
    EncodedHeader(c);
    TrailerFound(c, rs);
    OwnTrailer(w, f, Drop(d.buf, |f|));
    OwnTrailer(w, f, []);
    assert f + [] == f;
    hide EncodeFrame, HeaderWord, Sane, FullLen, KindOf, LenOf, AckLen, Late, Pad, Drop, Dispatch, IsReady;
    hide Tiled, TrailerOf, FirstLookahead, Encode;
  }

  lemma TrailerFound(c: Content, rs: seq<Tlv>)
    requires forall i :: 0 <= i < |rs| ==> |rs[i].body| <= 0xFF
    requires Sendable(c) && c.trailer == Encode(rs)
    ensures var f := EncodeFrame(c);
            var w := HeaderWord(f);
            && Sane(w, f) && AckLen(w, f) == |c.trailer|
            && Tiled(TrailerOf(f, w, AckLen(w, f)), 0, AckLen(w, f))
            && Reported(w, f) == FirstLookahead(rs)
  {
    EncodedHeader(c);
    FrameParts(c);
    var f, n := EncodeFrame(c), |c.trailer|;
    var w := HeaderWord(f);
    hide EncodeFrame, HeaderWord, Sane, FullLen, KindOf, LenOf, AckLen, Pad, Drop, Encode, FirstLookahead, Tiled, Scan;
    TrailerStart(f, 6 + |c.packet|, n);
    assert TrailerAt(w, n) == 6 + |c.packet|;
    FoundIn(TrailerOf(f, w, n), rs);
  }

  lemma FoundIn(t: seq<Byte>, rs: seq<Tlv>)
    requires forall i :: 0 <= i < |rs| ==> |rs[i].body| <= 0xFF
    requires |Encode(rs)| <= 0xFF && |t| == |Encode(rs)| + 7 && t[..|Encode(rs)|] == Encode(rs)
    ensures Tiled(t, 0, |Encode(rs)|) && Scan(t, 0, |Encode(rs)|) == FirstLookahead(rs)
  {
    hide Encode, FirstLookahead, Tiled, Scan;
    var post := t[|Encode(rs)|..];
    assert t == Encode(rs) + post && t == [] + Encode(rs) + post;
    ScanEncoded(rs, post);
    EncodedTiled([], rs, post);
  }

  // Ring slots.

  function DataCount(frames: seq<seq<Byte>>): (n: nat) {
    if |frames| == 0 then 0
    else DataCount(frames[..|frames| - 1]) + if IsData(KindOf(HeaderWord(frames[|frames| - 1]))) then 1 else 0
  }

  lemma FlatSnoc(d: Driver, frames: seq<seq<Byte>>)
    requires |frames| > 0 && forall i :: 0 <= i < |frames| ==> FrameOk(frames[i])
    ensures var f := frames[|frames| - 1];
            && Sane(HeaderWord(f), f)
            && Flat(d, frames) == Taken(Flat(d, frames[..|frames| - 1]), HeaderWord(f), f)
  {
    var a, f := frames[..|frames| - 1], frames[|frames| - 1];
    assert frames == a + [f];
    FlatConcat(d, a, [f]);
    assert FrameOk(f);
    hide Taken, HeaderWord, Sane, Tiled, TrailerOf, AckLen;
    var none: seq<seq<Byte>> := [];
    assert [f][1..] == none;
    FlatNone(Taken(Flat(d, a), HeaderWord(f), f));
  }

  /** The slot after `k` steps round the ring. */
  function Turn(k: nat): (i: nat) { k % SLOTS }

  lemma NextTurn(k: nat)
    ensures NextIdx(Turn(k), SLOTS) == Turn(k + 1)
  {}

  lemma OneMore(p: Driver, f: seq<Byte>, k: nat)
    requires Sane(HeaderWord(f), f) && p.slots == SLOTS && p.idx == Turn(k)
    ensures var w := HeaderWord(f);
            var r := Taken(p, w, f);
            && r.slots == SLOTS && r.idx == Turn(k + if IsData(KindOf(w)) then 1 else 0)
            && r.log == p.log + [Dispatch(w, f, if IsData(KindOf(w)) then Some(Turn(k)) else None)]
  {
    hide HeaderWord, Sane, Dispatch, KindOf, Drop, Turn, NextIdx;
    NextTurn(k);
  }

  lemma {:induction false} IndexGoesRound(d: Driver, frames: seq<seq<Byte>>)
    requires d.slots == SLOTS && d.idx == Turn(d.idx) && forall i :: 0 <= i < |frames| ==> FrameOk(frames[i])
    ensures Flat(d, frames).slots == SLOTS && Flat(d, frames).idx == Turn(d.idx + DataCount(frames))
  {
    hide Flat, HeaderWord, FrameOk, Sane, Dispatch, KindOf, Taken, Turn;
    if |frames| > 0 {
      var a, f := frames[..|frames| - 1], frames[|frames| - 1];
      IndexGoesRound(d, a);
      FlatSnoc(d, frames);
      OneMore(Flat(d, a), f, d.idx + DataCount(a));
    } else {
      FlatNone(d);
    }
  }

  /** Received frames go round the ring: the last of any number of frames, if it is a
      data frame, is put into the slot that the data frames before it have moved the
      index to. */
  lemma SlotsGoRound(d: Driver, frames: seq<seq<Byte>>)
    requires d.slots == SLOTS && d.idx == Turn(d.idx) && forall i :: 0 <= i < |frames| ==> FrameOk(frames[i])
    requires |frames| > 0
    ensures var a, f := frames[..|frames| - 1], frames[|frames| - 1];
            var w := HeaderWord(f);
            Sane(w, f) &&
            Flat(d, frames).log ==
            Flat(d, a).log + [Dispatch(w, f, if IsData(KindOf(w)) then Some(Turn(d.idx + DataCount(a))) else None)]
  {
    hide Flat, HeaderWord, FrameOk, Sane, Dispatch, KindOf, Taken, Turn, DataCount;
    var a := frames[..|frames| - 1];
    IndexGoesRound(d, a);
    FlatSnoc(d, frames);
    OneMore(Flat(d, a), frames[|frames| - 1], d.idx + DataCount(a));
  }

  /** Data frames fewer than a whole round apart get different slots. */
  lemma SlotsDiffer(d: Driver, frames: seq<seq<Byte>>, i: nat, k: nat)
    requires i <= k <= |frames|
    requires DataCount(frames[..i]) < DataCount(frames[..k]) < DataCount(frames[..i]) + SLOTS
    ensures Turn(d.idx + DataCount(frames[..i])) != Turn(d.idx + DataCount(frames[..k]))
  {
    hide DataCount;
    RoundDiffers(d.idx + DataCount(frames[..i]), d.idx + DataCount(frames[..k]));
  }

  lemma RoundDiffers(x: nat, y: nat)
    requires x < y < x + SLOTS
    ensures x % SLOTS != y % SLOTS
  {}
}
