/** Runs in which the code as it stands transmits a wrong byte: a READY at the
    wrong moment, one send too many, a send inside an index update, and five sends
    inside another. */
module RingFailures {
  import opened Words
  import opened RingHandoff
  import opened RingSafety
  import opened RingExact
  import opened RingTake

  /** `n` packets `it` taken in a row, none of them read yet. The first is `f`, a
      send that is suspended, or there is no such send. */
  predicate Lined(s: State, f: seq<Fill>, n: nat, it: Item) {
    && |s.mem| == RINGS * SLOT && s.fills == f && s.cons.Waiting? && s.delivered == []
    && |f| <= 1 && |f| <= n && (|f| == 1 ==> f[0].j == 0)
    && |s.submitted| == n && s.idx == n % RINGS
    && (forall j :: 0 <= j < n ==> s.submitted[j] == Entry(it, SLOT * j))
    && |s.queue| == n - |f| && (forall q :: 0 <= q < n - |f| ==> s.queue[q].j == q + |f|)
  }

  lemma LinedFree(s: State, f: seq<Fill>, n: nat, it: Item)
    requires Lined(s, f, n, it) && n < RINGS
    ensures !Clash(Tx, s)
  {}

  lemma LinedNext(s: State, f: seq<Fill>, n: nat, it: Item)
    requires Lined(s, f, n, it) && n < RINGS && |it.data| <= SLOT
    ensures SLOT * s.idx + |it.data| <= |s.mem| && Lined(SentItem(s, it), f, n + 1, it)
  {
    hide Filled;
  }

  function WholeSend(it: Item): (steps: seq<Step>) { [Take(it)] + (LoadingSteps(it) + [Send]) }

  function Sends(n: nat, it: Item): (steps: seq<Step>) {
    if n == 0 then [] else Sends(n - 1, it) + WholeSend(it)
  }

  lemma {:induction false} CarefulAppend(s: State, a: seq<Step>, b: seq<Step>)
    requires Careful(Tx, s, a) && Careful(Tx, Run(Tx, s, a), b)
    ensures Careful(Tx, s, a + b)
    decreases |b|
  {
    hide StepOk, Run;
    if |b| == 0 {
      assert a + b == a;
    } else {
      var c := b[..|b| - 1];
      CarefulAppend(s, a, c);
      RunAppend(Tx, s, a, c);
      assert (a + b)[..|a + b| - 1] == a + c;
    }
  }

  lemma CarefulSend(s: State, it: Item, rest: seq<Step>)
    requires !Clash(Tx, s) && Handling(rest)
    ensures Careful(Tx, s, [Take(it)] + rest)
  {
    hide Clash, Harmless, Run, Next;
    RunOne(Tx, s, Take(it));
    HandlingCareful(Tx, Run(Tx, s, [Take(it)]), rest);
    assert Careful(Tx, s, [Take(it)]) by {
      assert [Take(it)][..0] == [];
      NothingRun(s);
    }
    CarefulAppend(s, [Take(it)], rest);
  }

  lemma NothingRun(s: State)
    ensures Run(Tx, s, []) == s
  {}

  /** Sends from a lined-up state, as long as there are slots. */
  lemma {:induction false} SendsLine(s: State, f: seq<Fill>, m: nat, n: nat, it: Item)
    requires Shape(Tx, s) && Lined(s, f, m, it) && m + n <= RINGS && Fits(Tx, it)
    ensures Careful(Tx, s, Sends(n, it)) && Shape(Tx, Run(Tx, s, Sends(n, it)))
    ensures Lined(Run(Tx, s, Sends(n, it)), f, m + n, it)
    decreases n
  {
    hide Shape, Clash, Next, LoadingSteps, SentItem, Harmless;
    if n > 0 {
      SendsLine(s, f, m, n - 1, it);
      var a := Sends(n - 1, it);
      var r := Run(Tx, s, a);
      hide Run, Careful;
      LinedFree(r, f, m + n - 1, it);
      LinedNext(r, f, m + n - 1, it);
      SendingIs(r, it);
      CarefulSend(r, it, LoadingSteps(it) + [Send]);
      CarefulAppend(s, a, WholeSend(it));
      RunAppend(Tx, s, a, WholeSend(it));
      RunCons(Tx, r, Take(it), LoadingSteps(it) + [Send]);
      RunShape(Tx, s, Sends(n, it));
    }
  }

  /** Reading the one byte of the oldest packet. */
  lemma ReadOldest(s: State)
    requires Shape(Tx, s) && s.cons.Waiting? && |s.queue| > 0
    requires s.queue[0].j < |s.submitted| && s.submitted[s.queue[0].j].item.len == 1
    ensures var j := s.queue[0].j;
            var r := Run(Tx, s, [Begin(1), Fetch, Finish]);
            && s.submitted[j].slot < |s.mem|
            && r.delivered == s.delivered + [Delivery(j, [s.mem[s.submitted[j].slot]])] && r.submitted == s.submitted
  {
    var l := s.queue[0];
    LettersOld(Tx, s, 0);
    EntryFits(Tx, s, l.j);
    assert l.msg == Msg(s.submitted[l.j].slot, 1);
    hide Shape, IsSlot, Run;
    ThreeSteps(s, Begin(1), Fetch, Finish);
    var a := Next(Tx, s, Begin(1));
    assert a.cons == Reading(l, 1, []) && a.mem == s.mem && a.delivered == s.delivered && a.submitted == s.submitted;
    var b := Next(Tx, a, Fetch);
    assert b.cons == Reading(l, 1, [s.mem[l.msg.ptr]]) && b.delivered == s.delivered && b.submitted == s.submitted;
  }

  lemma ThreeSteps(s: State, x: Step, y: Step, z: Step)
    ensures Run(Tx, s, [x, y, z]) == Next(Tx, Next(Tx, Next(Tx, s, x), y), z)
  {
    hide Next, Run;
    RunCons(Tx, s, x, [y, z]);
    RunCons(Tx, Next(Tx, s, x), y, [z]);
    RunOne(Tx, Next(Tx, Next(Tx, s, x), y), z);
    assert [x] + [y, z] == [x, y, z] && [y] + [z] == [y, z];
  }

  const ZERO := Item([0], 1)

  lemma BootLined(s: State)
    requires Boot(s)
    ensures Shape(Tx, s) && Lined(s, [], 0, ZERO)
  {
    BootShape(Tx, s);
  }

  /** READY at the wrong moment: one packet of the byte 0 is waiting, ARM9 handles
      READY, and ARM7 transmits 0x0F. */
  lemma ReadyOverwrites(s: State)
    requires Boot(s)
    ensures Careful(Tx, s, Sends(1, ZERO))
    ensures var p := Run(Tx, Run(Tx, s, Sends(1, ZERO)), Stamps(RINGS));
            var r := Run(Tx, p, [Begin(1), Fetch, Finish]);
            && |r.submitted| == 1 && r.submitted[0].item == ZERO && |r.delivered| == 1
            && r.delivered[0] == Delivery(0, [0x0F]) && !Right(Tx, r.submitted, r.delivered[0])
  {
    hide Run, Shape, Next, Careful, Sends, Stamps;
    BootLined(s);
    SendsLine(s, [], 0, 1, ZERO);
    var a := Run(Tx, s, Sends(1, ZERO));
    StampsWrite(Tx, a, RINGS);
    RunShape(Tx, a, Stamps(RINGS));
    var p := Run(Tx, a, Stamps(RINGS));
    ReadOldest(p);
    assert ByteAt(p.mem, 0, 0) == 0x0F;
  }

  /** One send too many: six packets of the byte 0 are waiting, a seventh of the
      byte 1 is copied, and ARM7 transmits a 1 for the first. */
  lemma SeventhSendOverwrites(s: State)
    requires Boot(s)
    ensures Careful(Tx, s, Sends(6, ZERO))
    ensures var a := Run(Tx, s, Sends(6, ZERO));
            var p := Run(Tx, Next(Tx, a, Take(Item([1], 1))), LoadingSteps(Item([1], 1)));
            var r := Run(Tx, p, [Begin(1), Fetch, Finish]);
            && |Unfinished(a)| == 6 && |r.submitted| == 7 && r.submitted[0].item == ZERO && |r.delivered| == 1
            && r.delivered[0] == Delivery(0, [1]) && !Right(Tx, r.submitted, r.delivered[0])
  {
    hide Run, Shape, Next, Careful, Sends, LoadingSteps;
    BootLined(s);
    SendsLine(s, [], 0, 6, ZERO);
    var a, it := Run(Tx, s, Sends(6, ZERO)), Item([1], 1);
    LoadingIs(Tx, a, it);
    ShapeKept(Tx, a, Take(it));
    RunShape(Tx, Next(Tx, a, Take(it)), LoadingSteps(it));
    var p := Loaded(a, it);
    FilledAt(a.mem, 0, it.data, 0);
    hide Filled;
    assert p.submitted[0] == a.submitted[0];
    ReadOldest(p);
  }

  /** A send inside an index update: the outer send has read the index and not yet
      written it back, so the inner one is given the same slot. Nothing is
      unfinished, and ARM7 transmits the outer packet's 7 for the inner one's 9. */
  lemma IndexRace(s: State, inner: bool, outer: bool)
    requires Boot(s)
    ensures var a := Next(Tx, s, Take(Item([7], 1)));
            var b := Next(Tx, Next(Tx, Next(Tx, Next(Tx, a, Take(Item([9], 1))), Store(inner)), Copy), Send);
            var c := Next(Tx, Next(Tx, b, Store(outer)), Copy);
            var r := Run(Tx, c, [Begin(1), Fetch, Finish]);
            && Unfinished(a) == [] && a.submitted[0].slot == SLOT * a.idx && Clash(Tx, a)
            && |r.submitted| == 2 && r.submitted[1].item == Item([9], 1) && |r.delivered| == 1
            && r.delivered[0] == Delivery(1, [7]) && !Right(Tx, r.submitted, r.delivered[0])
  {
    hide Run, Clash;
    var a := Next(Tx, s, Take(Item([7], 1)));
    assert a.fills == [Fill(0, 0, 0, false)] && a.submitted == [Entry(Item([7], 1), 0)];
    UpdateClashes(a);
    BootShape(Tx, s);
    ShapeKept(Tx, s, Take(Item([7], 1)));
    hide Shape;
    RaceSends(a, inner, outer);
  }

  lemma RaceSends(a: State, inner: bool, outer: bool)
    requires Shape(Tx, a) && |a.mem| == RINGS * SLOT && a.idx == 0 && a.queue == [] && a.cons.Waiting?
    requires a.fills == [Fill(0, 0, 0, false)] && a.submitted == [Entry(Item([7], 1), 0)] && a.delivered == []
    ensures var b := Next(Tx, Next(Tx, Next(Tx, Next(Tx, a, Take(Item([9], 1))), Store(inner)), Copy), Send);
            var c := Next(Tx, Next(Tx, b, Store(outer)), Copy);
            var r := Run(Tx, c, [Begin(1), Fetch, Finish]);
            && |r.submitted| == 2 && r.submitted[1].item == Item([9], 1) && |r.delivered| == 1
            && r.delivered[0] == Delivery(1, [7]) && !Right(Tx, r.submitted, r.delivered[0])
  {
    hide Run, Shape;
    var it := Item([9], 1);
    var a1 := Next(Tx, a, Take(it));
    assert a1.fills == [Fill(0, 0, 0, false), Fill(1, 0, 0, false)];
    assert a1.submitted == [Entry(Item([7], 1), 0), Entry(it, 0)];
    var a2 := Next(Tx, a1, Store(inner));
    assert a2.fills == [Fill(0, 0, 0, false), Fill(1, 0, 0, true)];
    var a3 := Next(Tx, a2, Copy);
    assert a3.fills == [Fill(0, 0, 0, false), Fill(1, 1, 0, true)];
    var b := Next(Tx, a3, Send);
    assert b.fills == [Fill(0, 0, 0, false)] && b.queue == [Letter(Msg(0, 1), 1)];
    var b1 := Next(Tx, b, Store(outer));
    assert b1.fills == [Fill(0, 0, 0, true)];
    var c := Next(Tx, b1, Copy);
    assert c.mem[0] == 7 && c.queue == b.queue && c.submitted == a1.submitted && c.delivered == [] && c.cons.Waiting?;
    assert Shape(Tx, c) by {
      ShapeKept(Tx, a, Take(it));
      ShapeKept(Tx, a1, Store(inner));
      ShapeKept(Tx, a2, Copy);
      ShapeKept(Tx, a3, Send);
      ShapeKept(Tx, b, Store(outer));
      ShapeKept(Tx, b1, Copy);
    }
    hide Next;
    ReadOldest(c);
  }

  const PACKET := Item(seq(14, _ => 0), 14)

  /** Five sends inside another: all of them are careful and only five messages are
      unfinished, but the next slot is the one the suspended send is about to
      fill, and some packet put there is transmitted wrong. */
  lemma FiveInsideOne(s: State)
    requires Boot(s)
    ensures var first := [Take(PACKET), Store(false)];
            var r := Run(Tx, s, first + Sends(5, PACKET));
            && Careful(Tx, s, first + Sends(5, PACKET)) && |Unfinished(r)| == 5
            && |r.fills| == 1 && |r.submitted| == 6 && r.fills[0].j == 0 && r.submitted[0].slot == SLOT * r.idx
            && exists it :: Fits(Tx, it) && !Survives(Tx, Next(Tx, r, Take(it)))
  {
    var first := [Take(PACKET), Store(false)];
    assert first == [Take(PACKET)] + [Store(false)];
    BootLined(s);
    LinedFree(s, [], 0, ZERO);
    var a := Run(Tx, s, first);
    FirstSuspended(s);
    RunShape(Tx, s, first);
    hide Shape, Run, Next, Careful, Clash, Sends, Survives, Fits;
    CarefulSend(s, PACKET, [Store(false)]);
    assert Fits(Tx, PACKET) by { PacketFits(); }
    SendsLine(a, [Fill(0, 0, 0, true)], 1, 5, PACKET);
    CarefulAppend(s, first, Sends(5, PACKET));
    RunAppend(Tx, s, first, Sends(5, PACKET));
    var r := Run(Tx, s, first + Sends(5, PACKET));
    assert Clash(Tx, r) by { SuspendedClash(r); }
    TakeExact(Tx, s, first + Sends(5, PACKET));
  }

  lemma PacketFits()
    ensures Fits(Tx, PACKET)
  {}

  lemma FirstSuspended(s: State)
    requires Boot(s)
    ensures Lined(Run(Tx, s, [Take(PACKET), Store(false)]), [Fill(0, 0, 0, true)], 1, PACKET)
  {
    hide Run;
    RunCons(Tx, s, Take(PACKET), [Store(false)]);
    assert [Take(PACKET)] + [Store(false)] == [Take(PACKET), Store(false)];
    RunOne(Tx, Next(Tx, s, Take(PACKET)), Store(false));
    PacketFits();
    hide Fits;
    var a := Next(Tx, s, Take(PACKET));
    assert a.fills == [Fill(0, 0, 0, false)] && a.submitted == [Entry(PACKET, 0)];
    assert Next(Tx, a, Store(false)).fills == [Fill(0, 0, 0, true)];
  }

  lemma SuspendedClash(r: State)
    requires Lined(r, [Fill(0, 0, 0, true)], 6, PACKET)
    ensures Clash(Tx, r)
  {
    assert r.fills[0].j == 0;
    assert IsFilling(r, 0) && InUse(r, 0);
  }
}
