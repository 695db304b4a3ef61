/** wifi_card_mbox0_readpkt and data_handle_pkt of
    arm_iop/source/wifi_card.twl.c: reading frames out of the mailbox FIFO, with
    the one-entry cache that replaces a read of the lookahead register; and the
    one handler that reads frames itself, htc_handle_pkt of
    arm_iop/source/ath/htc.twl.c. The device is the stream of bytes still in its
    FIFO. */
module MboxRead {
  import opened Words
  import opened MboxTrailer

  /** The poll that precedes a read, over the successive values of the status
      register. Its exit test is the wrong way round: what returns early is
      data arriving on the very last poll, while a FIFO that stays empty for
      all 100 polls is read anyway. */
  method Poll(status: seq<Byte>) returns (proceed: bool)
    requires |status| >= 100
    ensures !proceed <==> status[99] % 2 == 1 && forall i :: 0 <= i < 99 ==> status[i] % 2 == 0
  {
    var timeout, i := 100, 0;
    while timeout != 0
      invariant 0 <= timeout == 100 - i && i <= 100
      invariant forall k :: 0 <= k < i ==> status[k] % 2 == 0
      decreases timeout
    {
      timeout := timeout - 1;
      if status[i] % 2 == 1 {
        return timeout != 0;
      }
      i := i + 1;
    }
    timeout := timeout - 1;
    return timeout != 0;
  }

  /** What a frame makes the driver do. */
  datatype Event =
    | Htc(cmd: U16, body: seq<Byte>, len: U32, ackLen: Byte)
    | Wmi(cmd: U16, body: seq<Byte>, len: U32, ackLen: Byte)
    | Auth(slot: Option<nat>, body: seq<Byte>, len: U32)   // data_handle_auth
    | PktData(slot: Option<nat>, body: seq<Byte>)          // FIFO message to ARM9
    | Unknown(kind: Byte)
    | Misframed                                            // outside the frame model

  /** `buf` is mbox_buffer, which every frame without a ring slot is read into;
      `slots` is the number of ring slots ARM9 announced, 0 before INITBUFS;
      `idx` is ip_data_out_buf_idx. */
  datatype Driver = Driver(
    stream: seq<Byte>, has: bool, word: U32, buf: seq<Byte>, slots: nat, idx: nat, log: seq<Event>)

  function Pad(s: seq<Byte>, n: nat): (r: seq<Byte>)
    ensures |r| == n
  {
    if |s| >= n then s[..n] else s + seq(n - |s|, _ => 0)
  }

  function Drop(s: seq<Byte>, n: nat): (r: seq<Byte>) {
    if |s| >= n then s[n..] else []
  }

  /** The lookahead register: the next four bytes of the FIFO. */
  function HeaderWord(stream: seq<Byte>): (w: U32) {
    var b := Pad(stream, 4);
    Le32(b[0], b[1], b[2], b[3])
  }

  function KindOf(w: U32): (k: Byte) { w % 0x100 }
  function AckOf(w: U32): (k: Byte) { w / 0x100 % 0x100 }
  function LenOf(w: U32): (k: U16) { w / 0x1_0000 }

  function FullLen(w: U32): (n: nat)
    ensures n >= 0x80
  {
    RoundUpBlock(LenOf(w) + 6)
  }

  predicate IsData(kind: Byte) { 2 <= kind <= 5 }

  /** Trailer length; the field means nothing when no ack is present. */
  function AckLen(w: U32, f: seq<Byte>): (n: Byte)
    requires |f| >= 0x80
  {
    if AckOf(w) == 0 then 0 else f[4]
  }

  /** The frame fits the receive buffer and its trailer fits the frame. */
  predicate Sane(w: U32, f: seq<Byte>) {
    LenOf(w) <= 0x5FA && |f| == FullLen(w) && AckLen(w, f) <= LenOf(w)
  }

  /** Where the trailer of `n` bytes begins. */
  function TrailerAt(w: U32, n: Byte): (at: nat)
    requires n <= LenOf(w)
  {
    6 + LenOf(w) - n
  }

  /** The trailer's bytes, and the few behind it that a malformed one could make
      the scan read; past the end of the memory at hand they count as 0. */
  function TrailerOf(src: seq<Byte>, w: U32, n: Byte): (t: seq<Byte>)
    requires n <= LenOf(w)
    ensures |t| == n + 7
  {
    Pad(Drop(src, TrailerAt(w, n)), n + 7)
  }

  /** The lookahead a trailer of `n` bytes carries, as found in `src`. */
  function Late(src: seq<Byte>, w: U32, n: Byte): (r: Option<U32>)
    requires n <= LenOf(w)
  {
    Scan(TrailerOf(src, w, n), 0, n)
  }

  /** The lookahead a frame's own trailer carries. */
  function Reported(w: U32, f: seq<Byte>): (r: Option<U32>)
    requires Sane(w, f)
  {
    Late(f, w, AckLen(w, f))
  }

  /** data_handle_pkt: an 802.1X frame (ethertype 0x888E in the SNAP header)
      goes to the supplicant, anything else to ARM9. */
  function DataEvent(slot: Option<nat>, f: seq<Byte>, lenPkt: nat): (e: Event)
    requires 6 + lenPkt <= |f| && |f| >= 0x80
  {
    if f[28] == 0x88 && f[29] == 0x8E
    then Auth(slot, if lenPkt >= 24 then f[30..6 + lenPkt] else [], (lenPkt - 24) % 0x1_0000_0000)
    else PktData(slot, f[6..6 + Min(lenPkt, 0x5FA)])
  }

  function Dispatch(w: U32, f: seq<Byte>, slot: Option<nat>): (e: Event)
    requires Sane(w, f)
  {
    var lenPkt := LenOf(w) - AckLen(w, f);
    var cmd := Le16(f[6], f[7]);
    var body := if lenPkt >= 2 then f[8..6 + lenPkt] else [];
    var len := (lenPkt - 2) % 0x1_0000_0000;
    if KindOf(w) == 0 then Htc(cmd, body, len, AckLen(w, f))
    else if KindOf(w) == 1 then Wmi(cmd, body, len, AckLen(w, f))
    else if IsData(KindOf(w)) then DataEvent(slot, f, lenPkt)
    else Unknown(KindOf(w))
  }

  /** The ring index after `idx`. */
  function NextIdx(idx: nat, slots: nat): (r: nat)
    requires slots > 0
    ensures r < slots
  {
    (idx + 1) % slots
  }

  function SlotFor(slots: nat, idx: nat, w: U32): (s: Option<nat>) {
    if slots > 0 && IsData(KindOf(w)) then Some(idx) else None
  }

  const HTC_READY := 1
  const SERVICES := 5

  /** A frame whose handler reads five more frames before it returns. */
  predicate IsReady(w: U32, f: seq<Byte>)
    requires |f| >= 0x80
  {
    KindOf(w) == 0 && Le16(f[6], f[7]) == HTC_READY
  }

  /** The frame `f` is off the FIFO, in its slot or in the buffer, and with its
      handler. */
  function Taken(d: Driver, w: U32, f: seq<Byte>): (r: Driver)
    requires Sane(w, f)
    ensures r.stream == Drop(d.stream, |f|) && !r.has && r.slots == d.slots
  {
    var slot := SlotFor(d.slots, d.idx, w);
    d.(stream := Drop(d.stream, |f|), has := false,
       buf := if slot.Some? then d.buf else f + Drop(d.buf, |f|),
       idx := if slot.Some? then NextIdx(d.idx, d.slots) else d.idx,
       log := d.log + [Dispatch(w, f, slot)])
  }

  /** The lookahead that the read of `f` ends with: a slot still holds the frame,
      the buffer holds whatever was read into it last. */
  function Ended(d: Driver, w: U32, f: seq<Byte>): (r: Driver)
    requires Sane(w, f)
    ensures r.stream == d.stream
  {
    var la := Late(if SlotFor(d.slots, d.idx, w).Some? then f else d.buf, w, AckLen(w, f));
    d.(has := la.Some?, word := if la.Some? then la.value else d.word)
  }

  /** The header in hand: the code takes the cached word if there is one. */
  function Header(d: Driver, cached: bool): (w: U32) {
    if cached && d.has then d.word else HeaderWord(d.stream)
  }

  /** One call of wifi_card_mbox0_readpkt, with the calls its handler makes.
      `cached` is what the code does; without it, every header comes from the
      register. There is nothing to read from an empty FIFO. */
  function ReadOnce(d: Driver, cached: bool): (r: Driver)
    ensures |r.stream| <= |d.stream|
    decreases |d.stream|, 0
  {
    if d.stream == [] then d
    else
      var w := Header(d, cached);
      var f := Pad(d.stream, FullLen(w));
      if !Sane(w, f) then d.(log := d.log + [Misframed])
      else
        var d1 := Taken(d, w, f);
        var d2 := if IsReady(w, f) then ReadMany(d1, SERVICES, cached) else d1;
        Ended(d2, w, f)
  }

  function ReadMany(d: Driver, n: nat, cached: bool): (r: Driver)
    ensures |r.stream| <= |d.stream|
    decreases |d.stream|, n
  {
    if n == 0 then d else ReadMany(ReadOnce(d, cached), n - 1, cached)
  }

  // Frames in the FIFO.

  /** A frame that fits, whose trailer consists of whole records. */
  predicate FrameOk(f: seq<Byte>) {
    var w := HeaderWord(f);
    Sane(w, f) && Tiled(TrailerOf(f, w, AckLen(w, f)), 0, AckLen(w, f))
  }

  function Flatten(frames: seq<seq<Byte>>): (s: seq<Byte>) {
    if |frames| == 0 then [] else frames[0] + Flatten(frames[1..])
  }

  /** The frame's trailer, if it announces anything, announces what follows. */
  predicate Announces(f: seq<Byte>, rest: seq<seq<Byte>>)
    requires FrameOk(f)
  {
    Reported(HeaderWord(f), f).Some? ==>
      |rest| > 0 && Reported(HeaderWord(f), f).value == HeaderWord(rest[0])
  }

  /** A device that queues whole frames and whose trailers tell the truth. */
  predicate Honest(frames: seq<seq<Byte>>) {
    |frames| > 0 ==> FrameOk(frames[0]) && Announces(frames[0], frames[1..]) && Honest(frames[1..])
  }

  predicate Ready(f: seq<Byte>) {
    |f| >= 0x80 && IsReady(HeaderWord(f), f)
  }

  /** No READY frame among those from `a` up to `b` carries a trailer. */
  predicate Bare(frames: seq<seq<Byte>>, a: nat, b: nat) {
    forall i :: a <= i < b && i < |frames| && Ready(frames[i]) ==> AckLen(HeaderWord(frames[i]), frames[i]) == 0
  }

  predicate Agrees(d: Driver, frames: seq<seq<Byte>>) {
    && d.stream == Flatten(frames) && Honest(frames)
    && (d.has ==> |frames| > 0 && d.word == HeaderWord(frames[0]))
  }

  /** The frames left after one read, with the reads nested in it. */
  function Popped(frames: seq<seq<Byte>>): (r: seq<seq<Byte>>)
    ensures |r| <= |frames|
    ensures |frames| > 0 ==> |r| < |frames|
    decreases |frames|, 0
  {
    if |frames| == 0 then frames
    else if Ready(frames[0]) then PopMany(frames[1..], SERVICES)
    else frames[1..]
  }

  function PopMany(frames: seq<seq<Byte>>, n: nat): (r: seq<seq<Byte>>)
    ensures |r| <= |frames|
    decreases |frames|, n
  {
    if n == 0 then frames else PopMany(Popped(frames), n - 1)
  }

  /** Reads take frames off the front. */
  lemma {:induction false} PoppedIsRest(frames: seq<seq<Byte>>)
    ensures Popped(frames) == frames[|frames| - |Popped(frames)|..]
    decreases |frames|, 0
  {
    hide Ready, PopMany;
    if |frames| > 0 && Ready(frames[0]) {
      var q := PopMany(frames[1..], SERVICES);
      PopManyIsRest(frames[1..], SERVICES);
      assert frames[1..][|frames[1..]| - |q|..] == frames[|frames| - |q|..];
    }
  }

  lemma {:induction false} PopManyIsRest(frames: seq<seq<Byte>>, n: nat)
    ensures PopMany(frames, n) == frames[|frames| - |PopMany(frames, n)|..]
    decreases |frames|, n + 1
  {
    hide Popped;
    if n > 0 {
      var p := Popped(frames);
      PoppedIsRest(frames);
      PopManyIsRest(p, n - 1);
      var q := PopMany(p, n - 1);
      RestOfRest(frames, |frames| - |p|, |frames| - |q|);
    }
  }

  lemma RestOfRest(frames: seq<seq<Byte>>, a: nat, b: nat)
    requires a <= b <= |frames|
    ensures frames[a..][b - a..] == frames[b..]
  {}

  /** The simple form of a series of reads: frame after frame, each under its own
      header, nothing nested and nothing cached. */
  function Flat(d: Driver, frames: seq<seq<Byte>>): (r: Driver)
    decreases |frames|
  {
    if |frames| == 0 || !Sane(HeaderWord(frames[0]), frames[0]) then d
    else Flat(Taken(d, HeaderWord(frames[0]), frames[0]), frames[1..])
  }

  /** All of a driver but its cache. */
  function Core(d: Driver): (r: Driver) {
    d.(has := false, word := 0)
  }

  /** How many frames one read handles, and which. */
  function Count(frames: seq<seq<Byte>>): (n: nat)
    ensures n <= |frames|
  {
    |frames| - |Popped(frames)|
  }

  function Read(frames: seq<seq<Byte>>): (r: seq<seq<Byte>>) {
    frames[..Count(frames)]
  }

  lemma {:induction false} FlatCore(d: Driver, e: Driver, frames: seq<seq<Byte>>)
    requires Core(d) == Core(e)
    ensures Core(Flat(d, frames)) == Core(Flat(e, frames))
    decreases |frames|
  {
    if |frames| > 0 && Sane(HeaderWord(frames[0]), frames[0]) {
      hide Sane, HeaderWord, Dispatch;
      var w := HeaderWord(frames[0]);
      assert Core(Taken(d, w, frames[0])) == Core(Taken(e, w, frames[0]));
      FlatCore(Taken(d, w, frames[0]), Taken(e, w, frames[0]), frames[1..]);
    }
  }

  lemma {:induction false} FlatConcat(d: Driver, a: seq<seq<Byte>>, b: seq<seq<Byte>>)
    requires forall i :: 0 <= i < |a| ==> FrameOk(a[i])
    ensures Flat(d, a + b) == Flat(Flat(d, a), b)
    decreases |a|
  {
    hide Taken, Tiled, HeaderWord, AckLen, LenOf, FullLen;
    if |a| == 0 {
      assert a + b == b;
    } else {
      assert (a + b)[1..] == a[1..] + b && (a + b)[0] == a[0];
      assert FrameOk(a[0]);
      FlatConcat(Taken(d, HeaderWord(a[0]), a[0]), a[1..], b);
    }
  }

  lemma {:induction false} HonestSuffix(frames: seq<seq<Byte>>, k: nat)
    requires Honest(frames) && k <= |frames|
    ensures Honest(frames[k..])
    ensures forall i :: 0 <= i < k ==> FrameOk(frames[i])
    decreases k
  {
    hide FrameOk, Announces;
    if k > 0 {
      HonestSuffix(frames[1..], k - 1);
      assert frames[1..][k - 1..] == frames[k..];
      assert forall i :: 1 <= i < k ==> frames[i] == frames[1..][i - 1];
    } else {
      assert frames[0..] == frames;
    }
  }

  lemma HeadOfStream(frames: seq<seq<Byte>>)
    requires |frames| > 0 && |frames[0]| >= 4
    ensures HeaderWord(Flatten(frames)) == HeaderWord(frames[0])
    ensures Pad(Flatten(frames), |frames[0]|) == frames[0]
    ensures Drop(Flatten(frames), |frames[0]|) == Flatten(frames[1..])
  {
    hide Le32;
    assert Flatten(frames)[..4] == frames[0][..4];
  }

  lemma SaneBounds(w: U32, f: seq<Byte>)
    requires Sane(w, f)
    ensures |f| >= 0x80 && 6 + LenOf(w) <= |f| && AckLen(w, f) <= LenOf(w)
  {}

  lemma TrailerStart(src: seq<Byte>, at: nat, n: nat)
    requires at + n <= |src|
    ensures Pad(Drop(src, at), n + 7)[..n] == src[at..at + n]
  {}

  /** A trailer of whole records reads the same whatever lies behind the frame. */
  lemma OwnTrailer(w: U32, f: seq<Byte>, rest: seq<Byte>)
    requires Sane(w, f) && Tiled(TrailerOf(f, w, AckLen(w, f)), 0, AckLen(w, f))
    ensures Late(f + rest, w, AckLen(w, f)) == Reported(w, f)
  {
    SaneBounds(w, f);
    hide AckLen, LenOf, FullLen, Tiled, Scan, Sane;
    var n: int := AckLen(w, f);
    var at := TrailerAt(w, n);
    var t, u := TrailerOf(f, w, n), TrailerOf(f + rest, w, n);
    assert at + n <= |f|;
    TrailerStart(f, at, n);
    TrailerStart(f + rest, at, n);
    assert t[..n] == f[at..at + n] == (f + rest)[at..at + n] == u[..n];
    ScanLocal(t, u, 0, n);
  }

  /** The first frame, taken: what is known before its handler runs. */
  lemma FirstTaken(d: Driver, frames: seq<seq<Byte>>, cached: bool)
    requires Agrees(d, frames) && |frames| > 0
    ensures var w := HeaderWord(frames[0]);
            && Header(d, cached) == w && Pad(d.stream, FullLen(w)) == frames[0] && d.stream != []
            && FrameOk(frames[0]) && Agrees(Taken(d, w, frames[0]), frames[1..])
  {
    SaneBounds(HeaderWord(frames[0]), frames[0]);
    HeadOfStream(frames);
    hide AckLen, HeaderWord, LenOf, Pad, Drop, Tiled, Announces, Dispatch;
  }

  /** A read whose handler reads nothing. */
  lemma PlainRead(d: Driver, frames: seq<seq<Byte>>, cached: bool)
    requires Agrees(d, frames) && |frames| > 0 && !Ready(frames[0])
    ensures var w := HeaderWord(frames[0]);
            && ReadOnce(d, cached) == Ended(Taken(d, w, frames[0]), w, frames[0])
            && Agrees(ReadOnce(d, cached), frames[1..])
  {
    var w, f := HeaderWord(frames[0]), frames[0];
    FirstTaken(d, frames, cached);
    SaneBounds(w, f);
    OwnTrailer(w, f, Drop(d.buf, |f|));
    OwnTrailer(w, f, []);
    assert f + [] == f;
    assert Announces(f, frames[1..]);
    hide AckLen, HeaderWord, LenOf, Pad, Drop, Tiled, Dispatch, Late, IsReady, FullLen, Honest, Flatten;
  }

  /** A read whose handler reads five more. */
  lemma ReadyRead(d: Driver, frames: seq<seq<Byte>>, cached: bool)
    requires Agrees(d, frames) && |frames| > 0 && Ready(frames[0])
    ensures var w := HeaderWord(frames[0]);
            && FrameOk(frames[0]) && Agrees(Taken(d, w, frames[0]), frames[1..])
            && ReadOnce(d, cached) ==
               Ended(ReadMany(Taken(d, w, frames[0]), SERVICES, cached), w, frames[0])
  {
    FirstTaken(d, frames, cached);
    hide AckLen, HeaderWord, LenOf, Pad, Drop, Tiled, Dispatch, Late, IsReady, FullLen, Agrees, ReadMany, Taken, Ended;
  }

  /** With no trailer on a READY frame it handles, a read does what it would do with the
      register alone, leaves the cache right for the frame that is then first,
      and handles its frames in order, each once and under its own header. */
  lemma {:induction false} ReadAgrees(d: Driver, frames: seq<seq<Byte>>)
    requires Agrees(d, frames) && Bare(frames, 0, Count(frames))
    ensures ReadOnce(d, true) == ReadOnce(d, false) && Agrees(ReadOnce(d, true), Popped(frames))
    ensures Core(ReadOnce(d, true)) == Core(Flat(d, Read(frames)))
    decreases |frames|, 1
  {
    if |frames| == 0 {
    } else if Ready(frames[0]) {
      ReadyFirst(d, frames);
      var w := HeaderWord(frames[0]);
      NoLookahead(ReadMany(Taken(d, w, frames[0]), SERVICES, true), w, frames[0]);
    } else {
      PlainRead(d, frames, true);
      PlainRead(d, frames, false);
      FlatOne(d, frames);
      EndedCore(Taken(d, HeaderWord(frames[0]), frames[0]), HeaderWord(frames[0]), frames[0]);
    }
  }

  /** A READY frame's read up to the scan of its trailer. */
  lemma {:induction false} ReadyFirst(d: Driver, frames: seq<seq<Byte>>)
    requires Agrees(d, frames) && |frames| > 0 && Ready(frames[0]) && Bare(frames, 1, Count(frames))
    ensures var w := HeaderWord(frames[0]);
            FrameOk(frames[0]) &&
            var d2 := ReadMany(Taken(d, w, frames[0]), SERVICES, true);
            && ReadOnce(d, true) == ReadOnce(d, false) == Ended(d2, w, frames[0])
            && Agrees(d2, Popped(frames)) && Core(d2) == Core(Flat(d, Read(frames)))
    decreases |frames|, 0
  {
    hide ReadOnce, ReadMany, Taken, Ended, Agrees, HeaderWord, Flat, Bare, Core, Sane, Tiled;
    hide Popped, PopMany, Read, Ready, AckLen, TrailerOf, LenOf;
    ReadyRead(d, frames, true);
    ReadyRead(d, frames, false);
    var d1, rest := Taken(d, HeaderWord(frames[0]), frames[0]), frames[1..];
    FlatReady(d, frames);
    BareShift(frames, 1, Count(frames), |rest| - |PopMany(rest, SERVICES)|);
    ManyAgrees(d1, rest, SERVICES);
  }

  lemma FlatReady(d: Driver, frames: seq<seq<Byte>>)
    requires |frames| > 0 && Ready(frames[0]) && FrameOk(frames[0])
    ensures var rest := frames[1..];
            Popped(frames) == PopMany(rest, SERVICES) &&
            Flat(d, Read(frames)) ==
            Flat(Taken(d, HeaderWord(frames[0]), frames[0]), rest[..|rest| - |PopMany(rest, SERVICES)|])
  {
    hide PopMany, Taken, Ready, HeaderWord, Sane, Tiled, TrailerOf, AckLen, LenOf, Flat;
    var k := |frames| - |Popped(frames)|;
    FlatFirst(d, frames, k);
    assert frames[1..][..k - 1] == frames[..k][1..];
  }

  lemma FlatFirst(d: Driver, frames: seq<seq<Byte>>, k: nat)
    requires 0 < k <= |frames| && Sane(HeaderWord(frames[0]), frames[0])
    ensures Flat(d, frames[..k]) == Flat(Taken(d, HeaderWord(frames[0]), frames[0]), frames[..k][1..])
  {
    hide Taken, HeaderWord, Sane;
    assert frames[..k][0] == frames[0];
  }

  lemma {:induction false} ManyAgrees(d: Driver, frames: seq<seq<Byte>>, n: nat)
    requires Agrees(d, frames) && Bare(frames, 0, |frames| - |PopMany(frames, n)|)
    ensures ReadMany(d, n, true) == ReadMany(d, n, false) && Agrees(ReadMany(d, n, true), PopMany(frames, n))
    ensures Core(ReadMany(d, n, true)) == Core(Flat(d, frames[..|frames| - |PopMany(frames, n)|]))
    decreases |frames|, n + 2
  {
    hide ReadOnce, Agrees, Bare, Popped, Flat, Core;
    if n > 0 {
      var q := Popped(frames);
      BareLess(frames, |frames| - |PopMany(frames, n)|, Count(frames));
      ReadAgrees(d, frames);
      var d1 := ReadOnce(d, true);
      PoppedIsRest(frames);
      BareShift(frames, Count(frames), |frames| - |PopMany(frames, n)|, |q| - |PopMany(q, n - 1)|);
      ManyAgrees(d1, q, n - 1);
      AllOk(d, frames);
      FlatJoin(d, d1, frames, |frames| - |q|, |q| - |PopMany(q, n - 1)|);
    } else {
      assert frames[..0] == [];
      FlatNone(d);
    }
  }

  lemma FlatNone(d: Driver)
    ensures Flat(d, []) == d
  {}

  lemma FlatJoin(d: Driver, d1: Driver, frames: seq<seq<Byte>>, a: nat, b: nat)
    requires a + b <= |frames| && Core(d1) == Core(Flat(d, frames[..a]))
    requires forall i :: 0 <= i < |frames| ==> FrameOk(frames[i])
    ensures Core(Flat(d1, frames[a..][..b])) == Core(Flat(d, frames[..a + b]))
  {
    hide FrameOk, Flat, Core;
    assert frames[..a] + frames[a..][..b] == frames[..a + b];
    FlatConcat(d, frames[..a], frames[a..][..b]);
    FlatCore(d1, Flat(d, frames[..a]), frames[a..][..b]);
  }

  lemma BareShift(frames: seq<seq<Byte>>, k: nat, b: nat, c: nat)
    requires k <= |frames| && k + c <= b && (Bare(frames, k, b) || Bare(frames, 0, b))
    ensures Bare(frames[k..], 0, c)
  {
    hide Ready, AckLen, HeaderWord;
    assert forall i :: 0 <= i < |frames[k..]| ==> frames[k..][i] == frames[k + i];
  }

  lemma BareLess(frames: seq<seq<Byte>>, b: nat, c: nat)
    requires Bare(frames, 0, b) && c <= b
    ensures Bare(frames, 0, c)
  {
    hide Ready, AckLen, HeaderWord;
  }

  lemma AllOk(d: Driver, frames: seq<seq<Byte>>)
    requires Agrees(d, frames)
    ensures forall i :: 0 <= i < |frames| ==> FrameOk(frames[i])
  {
    HonestSuffix(frames, |frames|);
  }

  /** Without a trailer a read ends without a lookahead. */
  lemma NoLookahead(d: Driver, w: U32, f: seq<Byte>)
    requires Sane(w, f) && AckLen(w, f) == 0
    ensures Ended(d, w, f) == d.(has := false)
  {
    hide TrailerOf;
  }

  lemma FlatOne(d: Driver, frames: seq<seq<Byte>>)
    requires |frames| > 0 && !Ready(frames[0]) && Sane(HeaderWord(frames[0]), frames[0])
    ensures Core(Flat(d, Read(frames))) == Core(Taken(d, HeaderWord(frames[0]), frames[0]))
  {
    assert Read(frames) == frames[..1] && frames[..1][0] == frames[0];
    hide Taken, Sane, HeaderWord;
    assert frames[..1][1..] == frames[..0];
  }

  lemma EndedCore(d: Driver, w: U32, f: seq<Byte>)
    requires Sane(w, f)
    ensures Core(Ended(d, w, f)) == Core(d)
  {
    hide Late, Sane;
  }

  // READY frames with a trailer.

  /** The exact condition. The handler's nested reads move the queue on and reuse
      the buffer, and only then is the READY frame's trailer looked for: the
      cache is right afterwards if and only if what stands at that place by then
      is no lookahead, or is the header of the frame that is now first. */
  lemma ReadyExact(d: Driver, frames: seq<seq<Byte>>)
    requires Agrees(d, frames) && |frames| > 0 && Ready(frames[0]) && Bare(frames, 1, Count(frames))
    ensures var f, q := frames[0], Popped(frames);
            var w := HeaderWord(f);
            FrameOk(f) && ReadOnce(d, true) == ReadOnce(d, false) &&
            var la := Late(Flat(d, Read(frames)).buf, w, AckLen(w, f));
            && (Agrees(ReadOnce(d, true), q) <==> la.None? || (|q| > 0 && la.value == HeaderWord(q[0])))
            && ReadOnce(d, true).has == la.Some? && (la.Some? ==> ReadOnce(d, true).word == la.value)
            && ReadOnce(d, true).stream == Flatten(q)
  {
    ReadyFirst(d, frames);
    var w, f := HeaderWord(frames[0]), frames[0];
    var d2 := ReadMany(Taken(d, w, f), SERVICES, true);
    assert d2.buf == Flat(d, Read(frames)).buf by { hide Flat, ReadMany, Taken; }
    assert SlotFor(d2.slots, d2.idx, w).None?;
    hide Late, AckLen, HeaderWord, LenOf, ReadMany, Taken, Flat, ReadOnce, FrameOk, Honest;
  }

  /** The place of the trailer is left alone by a frame that is short enough or
      goes to a ring slot. */
  predicate Clears(slots: nat, at: nat, g: seq<Byte>) {
    |g| <= at || (slots > 0 && IsData(KindOf(HeaderWord(g))))
  }

  lemma {:induction false} BufferAbove(d: Driver, at: nat, gs: seq<seq<Byte>>)
    requires forall i :: 0 <= i < |gs| ==> Clears(d.slots, at, gs[i])
    ensures Drop(Flat(d, gs).buf, at) == Drop(d.buf, at)
    decreases |gs|
  {
    if |gs| > 0 && Sane(HeaderWord(gs[0]), gs[0]) {
      var w, g := HeaderWord(gs[0]), gs[0];
      var d1 := Taken(d, w, g);
      assert Clears(d.slots, at, g);
      BufferBelow(d.buf, g, at);
      hide Sane, HeaderWord, Dispatch, Drop;
      assert forall i :: 0 <= i < |gs[1..]| ==> gs[1..][i] == gs[i + 1];
      BufferAbove(d1, at, gs[1..]);
    }
  }

  lemma BufferBelow(buf: seq<Byte>, g: seq<Byte>, at: nat)
    ensures |g| <= at ==> Drop(g + Drop(buf, |g|), at) == Drop(buf, at)
  {}

  /** The condition in terms of the frames, where the nested reads do not reach
      the trailer: it is taken at its word five frames too late, so it must
      announce nothing, or the frame that has moved up must happen to have the
      header of the one announced. */
  lemma StaleLookahead(d: Driver, frames: seq<seq<Byte>>)
    requires Agrees(d, frames) && |frames| > 0 && Ready(frames[0]) && Bare(frames, 1, Count(frames))
    requires var w := HeaderWord(frames[0]);
             AckLen(w, frames[0]) <= LenOf(w) &&
             forall i :: 1 <= i < Count(frames) ==>
               Clears(d.slots, TrailerAt(w, AckLen(w, frames[0])), frames[i])
    ensures var f, q := frames[0], Popped(frames);
            Sane(HeaderWord(f), f) &&
            (Agrees(ReadOnce(d, true), q) <==>
               Reported(HeaderWord(f), f).None? || (|q| > 0 && HeaderWord(frames[1]) == HeaderWord(q[0])))
            && (Reported(HeaderWord(f), f).Some? ==>
                  ReadOnce(d, true).has && ReadOnce(d, true).word == HeaderWord(frames[1]))
  {
    var w, f, gs := HeaderWord(frames[0]), frames[0], Read(frames);
    ReadyExact(d, frames);
    FirstTaken(d, frames, true);
    assert Announces(f, frames[1..]);
    var n := AckLen(w, f);
    LateIsOwn(d, w, f, gs);
    hide Late, AckLen, HeaderWord, LenOf, Agrees, ReadOnce, FrameOk, Honest, Flat;
  }

  lemma LateIsOwn(d: Driver, w: U32, f: seq<Byte>, gs: seq<seq<Byte>>)
    requires |gs| > 0 && gs[0] == f && w == HeaderWord(f) && FrameOk(f) && KindOf(w) == 0
    requires forall i :: 1 <= i < |gs| ==> Clears(d.slots, TrailerAt(w, AckLen(w, f)), gs[i])
    ensures Late(Flat(d, gs).buf, w, AckLen(w, f)) == Reported(w, f)
  {
    var at := TrailerAt(w, AckLen(w, f));
    var d1 := Taken(d, w, f);
    assert d1.buf == f + Drop(d.buf, |f|) && d1.slots == d.slots;
    OwnTrailer(w, f, Drop(d.buf, |f|));
    hide Tiled, Taken, Clears, Drop;
    assert forall i :: 0 <= i < |gs[1..]| ==> gs[1..][i] == gs[i + 1];
    BufferAbove(d1, at, gs[1..]);
  }

  /** A wrong cache shows at once: the next read takes a header that is not the
      first frame's. */
  lemma WrongHeader(d: Driver, frames: seq<seq<Byte>>)
    requires d.stream == Flatten(frames) && Honest(frames) && |frames| > 0
    ensures Agrees(d, frames) <==> Header(d, true) == Header(d, false) == HeaderWord(frames[0])
  {
    SaneBounds(HeaderWord(frames[0]), frames[0]);
    HeadOfStream(frames);
    hide HeaderWord, FrameOk, Honest, Flatten;
  }

  // Whole runs.

  /** Frames arrive at any time, the card's interrupt makes the driver read, and
      ARM9 announces its ring. */
  datatype Input = Arrive(frames: seq<seq<Byte>>) | Interrupt | InitBufs

  const SLOTS := 6

  function Run(d: Driver, inputs: seq<Input>, cached: bool): (r: Driver) {
    if |inputs| == 0 then d
    else
      var p := Run(d, inputs[..|inputs| - 1], cached);
      match inputs[|inputs| - 1]
      case Arrive(frames) => p.(stream := p.stream + Flatten(frames))
      case Interrupt => ReadOnce(p, cached)
      case InitBufs => p.(slots := SLOTS)
  }

  /** The frames in the FIFO after `inputs`. */
  function Queue(inputs: seq<Input>): (q: seq<seq<Byte>>) {
    if |inputs| == 0 then []
    else
      var q := Queue(inputs[..|inputs| - 1]);
      match inputs[|inputs| - 1]
      case Arrive(frames) => q + frames
      case Interrupt => Popped(q)
      case InitBufs => q
  }

  /** The simple form of a run. */
  function FlatRun(d: Driver, inputs: seq<Input>): (r: Driver) {
    if |inputs| == 0 then d
    else
      var p := FlatRun(d, inputs[..|inputs| - 1]);
      match inputs[|inputs| - 1]
      case Arrive(frames) => p.(stream := p.stream + Flatten(frames))
      case Interrupt => Flat(p, Read(Queue(inputs[..|inputs| - 1])))
      case InitBufs => p.(slots := SLOTS)
  }

  /** The device queues whole frames and tells the truth. */
  predicate HonestRun(inputs: seq<Input>) {
    |inputs| > 0 ==>
      && HonestRun(inputs[..|inputs| - 1])
      && (inputs[|inputs| - 1].Arrive? ==> Honest(Queue(inputs)))
  }

  /** No READY frame that an interrupt of the run handles carries a trailer, from
      its `a`-th frame on. */
  predicate BareRun(inputs: seq<Input>, a: nat) {
    |inputs| > 0 ==>
      && BareRun(inputs[..|inputs| - 1], a)
      && (inputs[|inputs| - 1].Interrupt? ==>
            var q := Queue(inputs[..|inputs| - 1]); Bare(q, a, Count(q)))
  }

  lemma {:induction false} FlattenConcat(a: seq<seq<Byte>>, b: seq<seq<Byte>>)
    ensures Flatten(a + b) == Flatten(a) + Flatten(b)
  {
    if |a| == 0 {
      assert a + b == b;
    } else {
      FlattenConcat(a[1..], b);
      assert (a + b)[1..] == a[1..] + b;
      assert Flatten(a + b) == a[0] + (Flatten(a[1..]) + Flatten(b));
    }
  }

  /** In every run without a trailer on a READY frame, whatever arrives in between,
      the cache holds the header of the frame at the head of the queue whenever it
      holds anything, the driver does exactly what it would do if it always read
      the register, and that is to handle the frames one by one in the order they
      arrived. */
  lemma {:induction false} RunsAgree(d: Driver, inputs: seq<Input>)
    requires d.stream == [] && !d.has && HonestRun(inputs) && BareRun(inputs, 0)
    ensures Run(d, inputs, true) == Run(d, inputs, false)
    ensures Agrees(Run(d, inputs, true), Queue(inputs))
    ensures Core(Run(d, inputs, true)) == Core(FlatRun(d, inputs))
  {
    hide ReadOnce, Ready, HeaderWord, FrameOk, Announces, Popped, Flat, AckLen, Bare;
    if |inputs| > 0 {
      var before := inputs[..|inputs| - 1];
      RunsAgree(d, before);
      var p, q := Run(d, before, true), Queue(before);
      match inputs[|inputs| - 1]
      case Arrive(frames) => FlattenConcat(q, frames);
      case InitBufs =>
      case Interrupt =>
        hide Agrees;
        ReadAgrees(p, q);
        FlatCore(p, FlatRun(d, before), Read(q));
    }
  }

  /** A READY frame at the head is read with luck: what stands at its trailer's
      place after the nested reads is no lookahead, or is the header of the frame
      that is then first. */
  predicate Lucky(d: Driver, frames: seq<seq<Byte>>) {
    |frames| > 0 && Ready(frames[0]) && Sane(HeaderWord(frames[0]), frames[0]) ==>
      var f, q := frames[0], Popped(frames);
      var la := Late(Flat(d, Read(frames)).buf, HeaderWord(f), AckLen(HeaderWord(f), f));
      la.None? || (|q| > 0 && la.value == HeaderWord(q[0]))
  }

  predicate LuckyRun(d: Driver, inputs: seq<Input>) {
    |inputs| > 0 ==>
      && LuckyRun(d, inputs[..|inputs| - 1])
      && (inputs[|inputs| - 1].Interrupt? ==>
            Lucky(FlatRun(d, inputs[..|inputs| - 1]), Queue(inputs[..|inputs| - 1])))
  }

  predicate AgreesThroughout(d: Driver, inputs: seq<Input>) {
    |inputs| > 0 ==>
      && AgreesThroughout(d, inputs[..|inputs| - 1])
      && Agrees(Run(d, inputs, true), Queue(inputs))
  }

  /** Over whole runs, exactly: the cache is right after every input if and only if
      every READY frame is read with luck. Only the frames that a READY frame's
      handler reads are to have no trailers on READY frames among them. */
  lemma {:induction false} RunExact(d: Driver, inputs: seq<Input>)
    requires d.stream == [] && !d.has && HonestRun(inputs) && BareRun(inputs, 1)
    ensures AgreesThroughout(d, inputs) <==> LuckyRun(d, inputs)
    ensures AgreesThroughout(d, inputs) ==>
              && Agrees(Run(d, inputs, true), Queue(inputs)) && Run(d, inputs, true) == Run(d, inputs, false)
              && Core(Run(d, inputs, true)) == Core(FlatRun(d, inputs))
  {
    hide ReadOnce, Ready, HeaderWord, FrameOk, Announces, Popped, Flat, AckLen, Bare, Lucky;
    if |inputs| > 0 {
      var before := inputs[..|inputs| - 1];
      RunExact(d, before);
      var p, q := Run(d, before, true), Queue(before);
      match inputs[|inputs| - 1]
      case Arrive(frames) => FlattenConcat(q, frames);
      case InitBufs =>
      case Interrupt =>
        hide Agrees;
        if AgreesThroughout(d, before) {
          ReadExact(p, q);
          FlatCore(p, FlatRun(d, before), Read(q));
          SameLuck(p, FlatRun(d, before), q);
        }
    }
  }

  lemma SameLuck(d: Driver, e: Driver, frames: seq<seq<Byte>>)
    requires Core(d) == Core(e)
    ensures Lucky(d, frames) <==> Lucky(e, frames)
  {
    FlatCore(d, e, Read(frames));
    hide Late, Flat, Read, Ready, Sane, HeaderWord, AckLen, Popped;
  }

  /** One read, whatever is first in the queue. */
  lemma ReadExact(d: Driver, frames: seq<seq<Byte>>)
    requires Agrees(d, frames) && Bare(frames, 1, Count(frames))
    ensures ReadOnce(d, true) == ReadOnce(d, false)
    ensures Agrees(ReadOnce(d, true), Popped(frames)) <==> Lucky(d, frames)
    ensures Core(ReadOnce(d, true)) == Core(Flat(d, Read(frames)))
  {
    if |frames| > 0 && Ready(frames[0]) {
      ReadyExact(d, frames);
      ReadyCore(d, frames);
      hide Late, Flat, Read, Ready, HeaderWord, AckLen, Popped, ReadOnce, Agrees, Tiled;
    } else {
      assert Bare(frames, 0, Count(frames)) by { hide AckLen, HeaderWord, Popped; }
      hide Flat, Ready, HeaderWord, AckLen, Popped, ReadOnce, Agrees, Bare;
      ReadAgrees(d, frames);
    }
  }

  lemma ReadyCore(d: Driver, frames: seq<seq<Byte>>)
    requires Agrees(d, frames) && |frames| > 0 && Ready(frames[0]) && Bare(frames, 1, Count(frames))
    ensures Core(ReadOnce(d, true)) == Core(Flat(d, Read(frames)))
  {
    ReadyFirst(d, frames);
    var w, f := HeaderWord(frames[0]), frames[0];
    EndedCore(ReadMany(Taken(d, w, f), SERVICES, true), w, f);
    hide ReadOnce, ReadMany, Taken, Ended, Agrees, HeaderWord, Flat, Bare, Popped, Ready;
  }

  // Frames that arrive while a READY frame's handler reads.

  /** Every read that the call makes finds a frame of the length it expects. */
  ghost predicate Supplied(d: Driver, cached: bool)
    decreases |d.stream|, 0
  {
    var w := Header(d, cached);
    && d.stream != [] && |d.stream| >= FullLen(w)
    && var f := Pad(d.stream, FullLen(w));
       (Sane(w, f) && IsReady(w, f) ==> SuppliedMany(Taken(d, w, f), SERVICES, cached))
  }

  ghost predicate SuppliedMany(d: Driver, n: nat, cached: bool)
    decreases |d.stream|, n
  {
    n == 0 || (Supplied(d, cached) && SuppliedMany(ReadOnce(d, cached), n - 1, cached))
  }

  function Behind(d: Driver, more: seq<Byte>): (r: Driver) {
    d.(stream := d.stream + more)
  }

  lemma HeaderBehind(d: Driver, more: seq<Byte>, cached: bool)
    requires |d.stream| >= 4
    ensures Header(Behind(d, more), cached) == Header(d, cached)
  {
    assert (d.stream + more)[..4] == d.stream[..4];
    hide Le32;
  }

  lemma TakenBehind(d: Driver, more: seq<Byte>, w: U32, f: seq<Byte>)
    requires Sane(w, f) && |f| <= |d.stream|
    ensures Taken(Behind(d, more), w, f) == Behind(Taken(d, w, f), more)
  {
    assert (d.stream + more)[|f|..] == d.stream[|f|..] + more;
    hide Sane, Dispatch;
  }

  /** What is queued behind does not change a read that finds what it needs. */
  lemma {:induction false} BehindOne(d: Driver, more: seq<Byte>, cached: bool)
    requires Supplied(d, cached)
    ensures ReadOnce(Behind(d, more), cached) == Behind(ReadOnce(d, cached), more)
    decreases |d.stream|, 0
  {
    hide Sane, HeaderWord, Late, Taken, SuppliedMany, ReadMany, IsReady, Pad, FullLen;
    var e, w := Behind(d, more), Header(d, cached);
    HeaderBehind(d, more, cached);
    var f := Pad(d.stream, FullLen(w));
    assert Pad(e.stream, FullLen(w)) == f by { PadBehind(d.stream, more, FullLen(w)); }
    if Sane(w, f) {
      TakenBehind(d, more, w, f);
      if IsReady(w, f) {
        BehindMany(Taken(d, w, f), more, SERVICES, cached);
      }
      assert ReadOnce(d, cached) ==
             Ended(if IsReady(w, f) then ReadMany(Taken(d, w, f), SERVICES, cached) else Taken(d, w, f), w, f);
    }
  }

  lemma PadBehind(s: seq<Byte>, more: seq<Byte>, n: nat)
    requires n <= |s|
    ensures Pad(s + more, n) == Pad(s, n)
  {}

  lemma {:induction false} BehindMany(d: Driver, more: seq<Byte>, n: nat, cached: bool)
    requires SuppliedMany(d, n, cached)
    ensures ReadMany(Behind(d, more), n, cached) == Behind(ReadMany(d, n, cached), more)
    decreases |d.stream|, n
  {
    hide ReadOnce, Supplied;
    if n > 0 {
      BehindOne(d, more, cached);
      BehindMany(ReadOnce(d, cached), more, n - 1, cached);
    }
  }

  /** The handler's reads when one batch of bytes arrives before each of them. */
  function FedMany(d: Driver, batches: seq<seq<Byte>>, cached: bool): (r: Driver)
    decreases |batches|
  {
    if |batches| == 0 then d else FedMany(ReadOnce(Behind(d, batches[0]), cached), batches[1..], cached)
  }

  ghost predicate SuppliedFed(d: Driver, batches: seq<seq<Byte>>, cached: bool)
    decreases |batches|
  {
    |batches| > 0 ==>
      && Supplied(Behind(d, batches[0]), cached)
      && SuppliedFed(ReadOnce(Behind(d, batches[0]), cached), batches[1..], cached)
  }

  lemma {:induction false} FedIsMany(d: Driver, batches: seq<seq<Byte>>, cached: bool)
    requires SuppliedFed(d, batches, cached)
    ensures FedMany(d, batches, cached) == ReadMany(Behind(d, Flatten(batches)), |batches|, cached)
    decreases |batches|
  {
    hide ReadOnce, Supplied;
    if |batches| > 0 {
      var e, rest := Behind(d, batches[0]), Flatten(batches[1..]);
      BehindOne(e, rest, cached);
      FedIsMany(ReadOnce(e, cached), batches[1..], cached);
      assert Behind(d, Flatten(batches)) == Behind(e, rest) by {
        assert d.stream + (batches[0] + rest) == (d.stream + batches[0]) + rest;
      }
    } else {
      assert d.stream + [] == d.stream;
    }
  }

  /** Frames that arrive in answer to the handler's requests might as well have been
      there before: the read of a READY frame with a batch arriving before each of
      the five nested reads is the read with everything queued from the start. */
  lemma ArrivalsInside(d: Driver, batches: seq<seq<Byte>>, cached: bool)
    requires var w := Header(d, cached);
             && |d.stream| >= FullLen(w) && |batches| == SERVICES
             && var f := Pad(d.stream, FullLen(w));
                Sane(w, f) && IsReady(w, f) && SuppliedFed(Taken(d, w, f), batches, cached)
    ensures var w := Header(d, cached);
            var f := Pad(d.stream, FullLen(w));
            Ended(FedMany(Taken(d, w, f), batches, cached), w, f) == ReadOnce(Behind(d, Flatten(batches)), cached)
  {
    hide Sane, HeaderWord, Late, Taken, SuppliedFed, ReadMany, IsReady, Pad, FedMany, FullLen;
    var w, more := Header(d, cached), Flatten(batches);
    var f := Pad(d.stream, FullLen(w));
    HeaderBehind(d, more, cached);
    assert Pad(d.stream + more, FullLen(w)) == f by { PadBehind(d.stream, more, FullLen(w)); }
    TakenBehind(d, more, w, f);
    FedIsMany(Taken(d, w, f), batches, cached);
  }

  lemma {:induction false} FlatLogs(d: Driver, frames: seq<seq<Byte>>)
    requires Misframed !in d.log
    ensures Misframed !in Flat(d, frames).log
    decreases |frames|
  {
    if |frames| > 0 && Sane(HeaderWord(frames[0]), frames[0]) {
      hide Sane, HeaderWord;
      FlatLogs(Taken(d, HeaderWord(frames[0]), frames[0]), frames[1..]);
    }
  }

  /** No frame of such a run is ever cut at the wrong place. */
  lemma {:induction false} NeverMisframed(d: Driver, inputs: seq<Input>)
    requires d.stream == [] && !d.has && d.log == [] && HonestRun(inputs) && BareRun(inputs, 0)
    ensures Misframed !in Run(d, inputs, true).log
  {
    RunsAgree(d, inputs);
    FlatRunLogs(d, inputs);
    hide Run, FlatRun;
  }

  lemma {:induction false} FlatRunLogs(d: Driver, inputs: seq<Input>)
    requires Misframed !in d.log
    ensures Misframed !in FlatRun(d, inputs).log
  {
    if |inputs| > 0 {
      hide Flat;
      FlatRunLogs(d, inputs[..|inputs| - 1]);
      FlatLogs(FlatRun(d, inputs[..|inputs| - 1]), Read(Queue(inputs[..|inputs| - 1])));
    }
  }

  /** The ring index never leaves the ring, whatever the device sends. */
  predicate IndexOk(d: Driver) {
    (d.slots == 0 || d.slots == SLOTS) && d.idx < SLOTS
  }

  lemma {:induction false} ReadKeepsIndex(d: Driver, cached: bool)
    requires IndexOk(d)
    ensures IndexOk(ReadOnce(d, cached))
    decreases |d.stream|, 0
  {
    hide Sane, HeaderWord, Dispatch, Late, Pad;
    var w := Header(d, cached);
    var f := Pad(d.stream, FullLen(w));
    if d.stream != [] && Sane(w, f) && IsReady(w, f) {
      ManyKeepIndex(Taken(d, w, f), SERVICES, cached);
    }
  }

  lemma {:induction false} ManyKeepIndex(d: Driver, n: nat, cached: bool)
    requires IndexOk(d)
    ensures IndexOk(ReadMany(d, n, cached))
    decreases |d.stream|, n
  {
    hide ReadOnce;
    if n > 0 {
      ReadKeepsIndex(d, cached);
      ManyKeepIndex(ReadOnce(d, cached), n - 1, cached);
    }
  }

  lemma {:induction false} RunKeepsIndex(d: Driver, inputs: seq<Input>)
    requires IndexOk(d)
    ensures IndexOk(Run(d, inputs, true))
  {
    hide ReadOnce;
    if |inputs| > 0 {
      RunKeepsIndex(d, inputs[..|inputs| - 1]);
      ReadKeepsIndex(Run(d, inputs[..|inputs| - 1], true), true);
    }
  }

  /** The driver's statics and the device, as the code updates them. */
  class Card {
    var stream: seq<Byte>
    var has: bool
    var word: U32
    var buf: seq<Byte>
    var slots: nat
    var idx: nat
    var log: seq<Event>

    ghost function State(): (d: Driver)
      reads this
    {
      Driver(stream, has, word, buf, slots, idx, log)
    }

    /** A block read of `n` bytes from the mailbox, into a ring slot or else into
        the driver's own buffer. */
    method ReadBlock(n: nat, slot: Option<nat>) returns (f: seq<Byte>)
      modifies this`stream, this`buf
      ensures f == Pad(old(stream), n)
      ensures stream == Drop(old(stream), n)
      ensures buf == if slot.Some? then old(buf) else f + Drop(old(buf), n)
    {
      f := Pad(stream, n);
      stream := Drop(stream, n);
      if slot.None? {
        buf := f + Drop(buf, n);
      }
    }

    /** data_next_buf of ARM7. */
    method NextBuf() returns (slot: nat)
      requires slots > 0
      modifies this`idx
      ensures slot == old(idx) && idx == NextIdx(old(idx), slots)
    {
      slot := idx;
      idx := NextIdx(idx, slots);
    }

    /** Where a frame goes: a ring slot for data, else the driver's own buffer. */
    method PickBuffer(header: U32) returns (slot: Option<nat>)
      modifies this`idx
      ensures slot == SlotFor(slots, old(idx), header)
      ensures idx == if slot.Some? then NextIdx(old(idx), slots) else old(idx)
    {
      slot := None;
      if slots > 0 && IsData(KindOf(header)) {
        var k := NextBuf();
        slot := Some(k);
      }
    }

    /** htc_handle_pkt for HTC_MSG_READY: five reads, each after a request. */
    method Handshake()
      modifies this
      ensures State() == ReadMany(old(State()), SERVICES, true)
      decreases |stream|, 1
    {
      hide ReadOnce;
      ghost var d := State();
      for k := 0 to SERVICES
        invariant ReadMany(State(), SERVICES - k, true) == ReadMany(d, SERVICES, true)
        invariant |stream| <= |d.stream|
      {
        var _ := ReadPkt();
      }
    }

    /** The end of wifi_card_mbox0_readpkt: the lookahead from the place where the
        frame's trailer was. */
    method TakeLookahead(header: U32, f: seq<Byte>, slot: Option<nat>)
      requires Sane(header, f) && (slot.Some? <==> SlotFor(slots, idx, header).Some?)
      modifies this`has, this`word
      ensures State() == Ended(old(State()), header, f)
    {
      SaneBounds(header, f);
      hide RoundUpBlock, LenOf, Sane, AckOf, Scan;
      var ackLen: Byte := if AckOf(header) == 0 then 0 else f[4];
      has := false;
      var la, w := ScanTrailer(TrailerOf(if slot.Some? then f else buf, header, ackLen), ackLen);
      has := la;
      if la {
        word := w;
      }
    }

    /** wifi_card_mbox0_readpkt past its poll. */
    method ReadPkt() returns (len: U16)
      modifies this
      ensures State() == ReadOnce(old(State()), true)
      ensures len == if old(stream) == [] then 0 else LenOf(Header(old(State()), true))
      decreases |stream|, 0
    {
      if stream == [] {
        return 0;
      }
      ghost var d := State();
      var header := if has then word else HeaderWord(stream);
      len := LenOf(header);
      if !Sane(header, Pad(stream, FullLen(header))) {
        log := log + [Misframed];
        return;
      }
      hide FullLen, HeaderWord, Dispatch, Pad, Sane, Late, ReadMany, NextIdx;
      has := false;
      var slot := PickBuffer(header);
      var f := ReadBlock(FullLen(header), slot);
      log := log + [Dispatch(header, f, slot)];
      assert State() == Taken(d, header, f);
      if IsReady(header, f) {
        Handshake();
      }
      TakeLookahead(header, f, slot);
    }
  }
}
