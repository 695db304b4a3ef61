/** A device that tells the truth and is misread all the same: its READY frame
    announces the frame behind it, the handler reads that one and four more, and
    the announcement is then believed of the next
    (arm_iop/source/ath/htc.twl.c and arm_iop/source/wifi_card.twl.c). */
module MboxStale {
  import opened Words
  import opened MboxTrailer
  import opened MboxRead

  function Zeros(n: nat): (s: seq<Byte>)
    ensures |s| == n && forall i :: 0 <= i < n ==> s[i] == 0
  {
    seq(n, _ => 0)
  }

  /** A one-block frame of the given kind, without a trailer. */
  function Short(kind: Byte): (f: seq<Byte>)
    ensures |f| == 0x80
  {
    [kind, 0, 2, 0] + Zeros(0x7C)
  }

  /** HTC READY of 0x88 bytes; the last 8 are a trailer that announces Short(1). */
  const READY_FRAME: seq<Byte> :=
    [0, 1, 0x88, 0, 8, 0, 1, 0] + Zeros(0x7E) + [2, 6, 0xAA, 1, 0, 2, 0, 0x55] + Zeros(0x72)

  lemma ShortOk(kind: Byte)
    requires kind > 0
    ensures var f := Short(kind);
            && HeaderWord(f) == kind + 0x2_0000 && FrameOk(f) && !Ready(f)
            && AckLen(HeaderWord(f), f) == 0 && Reported(HeaderWord(f), f).None?
  {
    var f := Short(kind);
    assert f[..4] == [kind, 0, 2, 0];
    assert HeaderWord(f) == kind + 0x2_0000;
  }

  lemma ReadyBytes()
    ensures |READY_FRAME| == 0x100 && READY_FRAME[..8] == [0, 1, 0x88, 0, 8, 0, 1, 0]
    ensures READY_FRAME[0x86..0x8E] == [2, 6, 0xAA, 1, 0, 2, 0, 0x55]
  {}

  lemma ReadyHeader()
    ensures HeaderWord(READY_FRAME) == 0x88_0100
    ensures Sane(0x88_0100, READY_FRAME) && AckLen(0x88_0100, READY_FRAME) == 8 && Ready(READY_FRAME)
  {
    ReadyBytes();
    var f := READY_FRAME;
    hide READY_FRAME;
    assert f[0] == f[..8][0] && f[1] == f[..8][1] && f[2] == f[..8][2] && f[3] == f[..8][3];
    assert f[4] == f[..8][4] && f[6] == f[..8][6] && f[7] == f[..8][7];
    assert f[..4] == f[..8][..4];
  }

  lemma OneItem(t: seq<Byte>)
    requires |t| == 15 && t[..8] == [2, 6, 0xAA, 1, 0, 2, 0, 0x55]
    ensures Tiled(t, 0, 8) && Scan(t, 0, 8) == Some(0x2_0001)
  {
    assert t[0] == t[..8][0] && t[1] == t[..8][1] && t[2] == t[..8][2] && t[7] == t[..8][7];
    assert t[3] == t[..8][3] && t[4] == t[..8][4] && t[5] == t[..8][5] && t[6] == t[..8][6];
    assert Tiled(t, 8, 8) && ItemAt(t, 0) && Le32(1, 0, 2, 0) == 0x2_0001;
  }

  lemma ReadyReports()
    ensures 8 <= LenOf(0x88_0100) && TrailerAt(0x88_0100, 8) == 0x86
    ensures Tiled(TrailerOf(READY_FRAME, 0x88_0100, 8), 0, 8)
    ensures Late(READY_FRAME, 0x88_0100, 8) == Some(0x2_0001)
  {
    ReadyBytes();
    hide READY_FRAME, Pad, Drop, Tiled, Scan;
    TrailerStart(READY_FRAME, 0x86, 8);
    OneItem(TrailerOf(READY_FRAME, 0x88_0100, 8));
  }

  lemma ReadyTrailer()
    ensures HeaderWord(READY_FRAME) == 0x88_0100 && FrameOk(READY_FRAME) && Ready(READY_FRAME)
    ensures AckLen(0x88_0100, READY_FRAME) == 8 && Reported(0x88_0100, READY_FRAME) == Some(0x2_0001)
  {
    hide READY_FRAME, Tiled, Late, Sane, TrailerOf, AckLen, Ready, HeaderWord;
    ReadyHeader();
    ReadyReports();
  }

  /** A frame that nothing is special about. */
  predicate Quiet(f: seq<Byte>) {
    FrameOk(f) && !Ready(f) && Reported(HeaderWord(f), f).None?
  }

  lemma {:induction false} QuietHonest(fs: seq<seq<Byte>>)
    requires forall i :: 0 <= i < |fs| ==> Quiet(fs[i])
    ensures Honest(fs) && Bare(fs, 0, |fs|)
  {
    hide FrameOk, Ready, Reported, AckLen, HeaderWord;
    if |fs| > 0 {
      assert Quiet(fs[0]);
      QuietHonest(fs[1..]);
    }
  }

  lemma {:induction false} QuietPop(fs: seq<seq<Byte>>, k: nat)
    requires k <= |fs| && forall i :: 0 <= i < |fs| ==> Quiet(fs[i])
    ensures PopMany(fs, k) == fs[k..]
    decreases k
  {
    hide FrameOk, Ready, Reported, HeaderWord;
    if k > 0 {
      assert Quiet(fs[0]);
      QuietPop(fs[1..], k - 1);
    }
  }

  /** A READY frame, five frames for its handler to read, and one more. */
  function Fifo(ready: seq<Byte>, a: seq<Byte>, b: seq<Byte>): (fs: seq<seq<Byte>>) {
    [ready] + [a, a, a, a, a, b]
  }

  /** The READY frame announces the next frame; its trailer lies behind the part
      of the buffer that `a` needs. */
  predicate Misleading(ready: seq<Byte>, a: seq<Byte>, b: seq<Byte>) {
    && FrameOk(ready) && Ready(ready) && Quiet(a) && Quiet(b) && HeaderWord(a) != HeaderWord(b)
    && Reported(HeaderWord(ready), ready) == Some(HeaderWord(a))
    && |a| <= TrailerAt(HeaderWord(ready), AckLen(HeaderWord(ready), ready))
  }

  lemma FifoHonest(ready: seq<Byte>, a: seq<Byte>, b: seq<Byte>)
    requires Misleading(ready, a, b)
    ensures var fs := Fifo(ready, a, b);
            && Honest(fs) && fs[1..] == [a, a, a, a, a, b] && Bare(fs, 1, Count(fs))
            && Popped(fs) == [b] && Count(fs) == 6
  {
    hide FrameOk, Ready, Reported, HeaderWord, PopMany, Quiet, TrailerAt, AckLen;
    var fs, served := Fifo(ready, a, b), [a, a, a, a, a, b];
    assert fs[1..] == served;
    QuietHonest(served);
    QuietPop(served, 5);
    assert served[5..] == [b];
    assert forall i :: 1 <= i < 7 ==> fs[i] == served[i - 1];
    assert Announces(ready, served);
  }

  /** One read of such a FIFO leaves the header of a frame that is gone. */
  lemma ReadyMisleads(d: Driver, ready: seq<Byte>, a: seq<Byte>, b: seq<Byte>)
    requires Misleading(ready, a, b) && d.stream == Flatten(Fifo(ready, a, b)) && !d.has
    ensures Honest(Fifo(ready, a, b))
    ensures var r := ReadOnce(d, true);
            && r == ReadOnce(d, false) && r.stream == b
            && r.has && r.word == HeaderWord(a) && r.word != HeaderWord(r.stream)
  {
    hide Ready, Reported, HeaderWord, PopMany, Popped, Read, Count, ReadOnce, Honest, Bare, Quiet, LenOf, AckLen;
    hide Sane, Tiled, TrailerOf;
    SaneBounds(HeaderWord(ready), ready);
    FifoHonest(ready, a, b);
    var fs := Fifo(ready, a, b);
    assert fs[0] == ready && forall i :: 1 <= i < 6 ==> fs[i] == a;
    hide Fifo, Flatten;
    ReadyExact(d, fs);
    StaleLookahead(d, fs);
    OneFrame(b);
  }

  lemma OneFrame(f: seq<Byte>)
    ensures Flatten([f]) == f
  {
    assert [f] == [f] + [];
  }

  lemma ShortMisleading()
    ensures Misleading(READY_FRAME, Short(1), Short(6))
    ensures HeaderWord(Short(1)) == 0x2_0001 && HeaderWord(Short(6)) == 0x2_0006
  {
    hide READY_FRAME, Short, FrameOk, Ready, Reported, HeaderWord, AckLen;
    ReadyTrailer();
    ShortOk(1);
    ShortOk(6);
  }

  /** The next read then hands a frame of an unknown kind to the WMI handler,
      where the register would have told it apart. */
  lemma FrameMistaken(d: Driver)
    requires d.stream == Flatten(Fifo(READY_FRAME, Short(1), Short(6))) && !d.has && d.slots == 0
    ensures Honest(Fifo(READY_FRAME, Short(1), Short(6)))
    ensures var r := ReadOnce(d, true);
            && ReadOnce(r, true).log == r.log + [Wmi(0, [], 0, 0)]
            && ReadOnce(r, false).log == r.log + [Unknown(6)]
  {
    hide READY_FRAME, Short, HeaderWord, Fifo, Flatten, Misleading, ReadOnce, Honest;
    ShortMisleading();
    ReadyMisleads(d, READY_FRAME, Short(1), Short(6));
    var r := ReadOnce(d, true);
    SlotsKept(d, true);
    MistakenAt(r);
  }

  lemma {:induction false} SlotsKept(d: Driver, cached: bool)
    ensures ReadOnce(d, cached).slots == d.slots
    decreases |d.stream|, 0
  {
    hide Sane, HeaderWord, Dispatch, Late, Pad;
    var w := Header(d, cached);
    var f := Pad(d.stream, FullLen(w));
    if d.stream != [] && Sane(w, f) && IsReady(w, f) {
      ManyKeepSlots(Taken(d, w, f), SERVICES, cached);
    }
  }

  lemma {:induction false} ManyKeepSlots(d: Driver, n: nat, cached: bool)
    ensures ReadMany(d, n, cached).slots == d.slots
    decreases |d.stream|, n + 1
  {
    hide ReadOnce;
    if n > 0 {
      SlotsKept(d, cached);
      ManyKeepSlots(ReadOnce(d, cached), n - 1, cached);
    }
  }

  lemma MistakenAt(r: Driver)
    requires r.stream == Short(6) && r.has && r.word == 0x2_0001 && r.slots == 0 && HeaderWord(r.stream) == 0x2_0006
    ensures ReadOnce(r, true).log == r.log + [Wmi(0, [], 0, 0)]
    ensures ReadOnce(r, false).log == r.log + [Unknown(6)]
  {
    var f := Short(6);
    assert FullLen(0x2_0001) == 0x80 == FullLen(0x2_0006);
    assert Pad(r.stream, 0x80) == f;
    assert f[6] == 0 && f[7] == 0 && f[8..8] == [];
    hide Short, Late, Pad, HeaderWord;
    assert Sane(0x2_0001, f) && Sane(0x2_0006, f);
    assert Dispatch(0x2_0001, f, None) == Wmi(0, [], 0, 0);
    assert Dispatch(0x2_0006, f, None) == Unknown(6);
  }
}
