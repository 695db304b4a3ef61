/** Handing out a slot, exactly: the ways in which a slot that is still in use can
    be spoiled, and the condition that rules out all of them and no more. */
module RingTake {
  import opened Words
  import opened RingHandoff
  import opened RingSafety
  import opened RingExact

  // A send that was interrupted goes on in the slot that the interrupt used.

  predicate FillAt(s: State, a: nat, m: nat) {
    exists p :: 0 <= p < |s.fills| && s.fills[p].j == a && s.fills[p].n == m
  }

  /** Packet `b` is announced, and the send of `a` below it will write a different
      byte `m` into the same slot. */
  predicate Looming(s: State, b: nat, a: nat, m: nat) {
    && Wanted(Tx, s, b, m) && InQueue(s, b) && !IsFilling(s, b) && Unmarked(Tx, s, b, m)
    && SameSlot(s, a, b) && m < |s.submitted[a].item.data|
    && s.submitted[a].item.data[m] != s.submitted[b].item.data[m] && FillAt(s, a, m)
    && forall p :: 0 <= p < |s.fills| && s.fills[p].j > a ==> !SameSlot(s, s.fills[p].j, b)
  }

  lemma TopOf(s: State, a: nat, m: nat)
    requires Shape(Tx, s) && FillAt(s, a, m)
    ensures Running(s) && (Top(s).j == a ==> Top(s).n == m) && (Top(s).j != a ==> a < Top(s).j)
  {
    hide EntriesShape, LettersShape, OrderShape;
    var p :| 0 <= p < |s.fills| && s.fills[p].j == a && s.fills[p].n == m;
    assert FillOk(s, Top(s));
  }

  /** Its first own byte goes over the announced packet. */
  lemma LoomCopy(s: State, b: nat, a: nat, m: nat)
    requires Shape(Tx, s) && Looming(s, b, a, m) && Running(s) && Top(s).j == a && Top(s).stored
    ensures Doomed(Tx, Next(Tx, s, Copy), b, m)
  {
    TopOf(s, a, m);
    EntryFits(Tx, s, a);
    var r := Next(Tx, s, Copy);
    assert MayCopy(s);
    TopMoves(s, r, Top(r), b);
    SameQueue(s, r, b);
    hide Shape, InQueue, IsFilling, Fits, IsSlot, End;
    assert r.submitted == s.submitted && Unfinished(r) == Unfinished(s) && !Held(r, b, m);
    hide Next;
    assert Unmarked(Tx, r, b, m);
  }

  /** The sends above it finish first. */
  lemma LoomProduce(s: State, b: nat, a: nat, m: nat, t: Step)
    requires Shape(Tx, s) && Looming(s, b, a, m) && Next(Tx, s, t) != s
    requires t == Store(false) || (t == Copy && Running(s) && Top(s).j != a)
    ensures var r := Next(Tx, s, t); Looming(r, b, a, m) && |r.fills| == |s.fills| && Left(r) < Left(s)
  {
    TopRuns(Tx, s);
    var r := Next(Tx, s, t);
    TopMoves(s, r, Top(r), b);
    SameQueue(s, r, b);
    assert r.submitted == s.submitted && r.queue == s.queue && r.cons == s.cons && Left(r) < Left(s);
    assert r.fills == WithTop(s, Top(r)) && Top(r).j == Top(s).j && (Top(r).n == Top(s).n || Top(s).j != a);
    hide Shape, Next, InQueue, IsFilling, Fits, End, Written;
    assert FillAt(r, a, m) by { LoomFill(s, r, a, m); }
    assert Unfinished(r) == Unfinished(s) && Unmarked(Tx, r, b, m);
    assert Wanted(Tx, r, b, m);
    assert forall p :: 0 <= p < |r.fills| ==> r.fills[p].j == s.fills[p].j;
  }

  lemma LoomFill(s: State, r: State, a: nat, m: nat)
    requires FillAt(s, a, m) && |s.fills| == |r.fills| > 0 && r.fills == WithTop(s, Top(r))
    requires Top(r).j == Top(s).j && (Top(r).n == Top(s).n || Top(s).j != a)
    ensures FillAt(r, a, m)
  {
    var p :| 0 <= p < |s.fills| && s.fills[p].j == a && s.fills[p].n == m;
    assert r.fills[p].j == a && r.fills[p].n == m;
  }

  lemma LoomSend(s: State, b: nat, a: nat, m: nat)
    requires Shape(Tx, s) && Looming(s, b, a, m) && Copied(s) && Top(s).j != a
    ensures var r := Next(Tx, s, Send); Looming(r, b, a, m) && |r.fills| < |s.fills|
  {
    TopOf(s, a, m);
    var r := Next(Tx, s, Send);
    LoomUnmarked(s, b, a, m);
    assert InQueue(r, b) by {
      var q :| 0 <= q < |s.queue| && s.queue[q].j == b;
      assert r.queue[q].j == b;
    }
    FewerFills(s, r, b);
    assert forall p :: 0 <= p < |r.fills| ==> r.fills[p] == s.fills[p];
    assert FillAt(r, a, m) by {
      var p :| 0 <= p < |s.fills| && s.fills[p].j == a && s.fills[p].n == m;
      assert r.fills[p].j == a;
    }
    hide Shape, InQueue, IsFilling, Fits, End, Written, Unmarked;
  }

  lemma LoomUnmarked(s: State, b: nat, a: nat, m: nat)
    requires Looming(s, b, a, m) && Copied(s) && a < Top(s).j
    ensures Unmarked(Tx, Next(Tx, s, Send), b, m)
  {
    var r := Next(Tx, s, Send);
    var k := |Unfinished(s)|;
    assert forall q :: 0 <= q < k ==> Unfinished(r)[q] == Unfinished(s)[q];
    assert Unfinished(r)[k].j == Top(s).j && |Unfinished(r)| == k + 1 && r.submitted == s.submitted;
    hide Next, InQueue, IsFilling, Wanted;
    assert !SameSlot(s, s.fills[|s.fills| - 1].j, b);
  }

  lemma {:induction false} LoomEnds(s: State, b: nat, a: nat, m: nat) returns (steps: seq<Step>)
    requires Shape(Tx, s) && Looming(s, b, a, m)
    ensures Handling(steps) && Shape(Tx, Run(Tx, s, steps)) && Doomed(Tx, Run(Tx, s, steps), b, m)
    decreases |s.fills|, Left(s)
  {
    hide Shape, Looming, Doomed, Left, Run, Next;
    assert Running(s) by { LoomRuns(s, b, a, m); }
    if Top(s).j == a && Top(s).stored {
      LoomCopy(s, b, a, m);
      ShapeKept(Tx, s, Copy);
      RunOne(Tx, s, Copy);
      steps := [Copy];
    } else {
      var t := LoomStep(s, b, a, m);
      ShapeKept(Tx, s, t);
      var rest := LoomEnds(Next(Tx, s, t), b, a, m);
      steps := [t] + rest;
      RunCons(Tx, s, t, rest);
    }
  }

  lemma LoomRuns(s: State, b: nat, a: nat, m: nat)
    requires Shape(Tx, s) && Looming(s, b, a, m)
    ensures Running(s)
  {
    hide Shape, Wanted, Unmarked;
    TopOf(s, a, m);
  }

  lemma LoomStep(s: State, b: nat, a: nat, m: nat) returns (t: Step)
    requires Shape(Tx, s) && Looming(s, b, a, m) && Running(s) && !(Top(s).j == a && Top(s).stored)
    ensures !t.Take? && !t.Stamp? && Looming(Next(Tx, s, t), b, a, m)
    ensures var r := Next(Tx, s, t);
            |r.fills| < |s.fills| || (|r.fills| == |s.fills| && Left(r) < Left(s))
  {
    TopRuns(Tx, s);
    hide Shape, Looming, Left, Next;
    t := if !Top(s).stored then Store(false) else if Top(s).n < |EntryOf(s).item.data| then Copy else Send;
    if t.Send? {
      LoomSend(s, b, a, m);
    } else {
      TopChanges(s, t);
      LoomProduce(s, b, a, m, t);
    }
  }

  lemma TopChanges(s: State, t: Step)
    requires Running(s) && ((t == Store(false) && !Top(s).stored) || (t == Copy && MayCopy(s)))
    ensures Next(Tx, s, t) != s
  {
    assert Top(Next(Tx, s, t)) != Top(s);
  }

  /** The state after a whole send of `it`. */
  function SentItem(s: State, it: Item): (r: State)
    requires SLOT * s.idx + |it.data| <= |s.mem|
  {
    s.(mem := Filled(s.mem, SLOT * s.idx, it.data), idx := (s.idx + 1) % RINGS,
       queue := s.queue + [Letter(Msg(SLOT * s.idx, it.len), |s.submitted|)],
       submitted := s.submitted + [Entry(it, SLOT * s.idx)], sent := s.sent + [|s.submitted|])
  }

  /** A send inside one that has copied only its first bytes, in the same slot. */
  lemma SentLooms(s: State, it: Item, a: nat, m: nat)
    requires Shape(Tx, s) && Intact(Tx, s) && FillAt(s, a, m) && a < |s.submitted|
    requires s.submitted[a].slot == SLOT * s.idx && m < |s.submitted[a].item.data|
    requires it.len == |it.data| == m + 1 && m < CLAMP && it.data[m] != s.submitted[a].item.data[m]
    requires SLOT * s.idx + |it.data| <= |s.mem|
    ensures Looming(SentItem(s, it), |s.submitted|, a, m)
  {
    var r, b := SentItem(s, it), |s.submitted|;
    assert r.queue[|s.queue|].j == b && InQueue(r, b);
    assert !IsFilling(r, b) by { FillsOld(s); }
    assert IsFilling(s, a) && InUse(s, a);
    AloneUnmarked(s, a, 0);
    forall p | 0 <= p < |r.fills| && r.fills[p].j > a
      ensures !SameSlot(r, r.fills[p].j, b)
    {
      FillsOld(s);
      assert IsFilling(s, s.fills[p].j) && InUse(s, s.fills[p].j);
      assert !SameSlot(s, s.fills[p].j, a);
    }
    SentUnmarkedToo(s, r, a, b, m);
    hide Shape, Intact, InUse, IsFilling, Unmarked, Filled, Uncovered;
  }

  lemma FillsOld(s: State)
    requires Shape(Tx, s)
    ensures forall p :: 0 <= p < |s.fills| ==> s.fills[p].j < |s.submitted|
  {
    hide EntriesShape, LettersShape, OrderShape;
  }

  lemma SentUnmarkedToo(s: State, r: State, a: nat, b: nat, m: nat)
    requires Shape(Tx, s) && Unmarked(Tx, s, a, 0) && IsFilling(s, a) && a < |s.submitted| == b
    requires |r.submitted| == b + 1 && r.submitted[..b] == s.submitted && r.submitted[b].slot == s.submitted[a].slot
    requires r.cons == s.cons && |r.queue| == |s.queue| + 1
    requires r.queue[..|s.queue|] == s.queue && r.queue[|s.queue|].j == b
    ensures Unmarked(Tx, r, b, m)
  {
    forall q | 0 <= q < |Unfinished(r)| && Unfinished(r)[q].j != b
      ensures !SameSlot(r, Unfinished(r)[q].j, b)
    {
      assert Unfinished(r)[q] == Unfinished(s)[q];
      LettersOld(Tx, s, q);
      assert Unfinished(s)[q].j != a by { NotAnnounced(s, a, q); }
    }
  }

  lemma NotAnnounced(s: State, a: nat, q: nat)
    requires Shape(Tx, s) && IsFilling(s, a) && q < |Unfinished(s)|
    ensures Unfinished(s)[q].j != a
  {
    hide EntriesShape, LettersShape, FillsShape;
    var c := |Unfinished(s)| - |s.queue|;
    assert q >= c ==> Unfinished(s)[q] == s.queue[q - c];
  }

  lemma SendingIs(s: State, it: Item)
    requires Shape(Tx, s) && Fits(Tx, it)
    ensures SLOT * s.idx + |it.data| <= |s.mem| && Handling(LoadingSteps(it) + [Send])
    ensures Run(Tx, Next(Tx, s, Take(it)), LoadingSteps(it) + [Send]) == SentItem(s, it)
  {
    LoadingIs(Tx, s, it);
    SendSteps(s, it, false);
    LoadSteps(Tx, s, it, false);
    hide Shape, Next, Run, Loaded, Fits, LoadingSteps, Filled;
    RunAppend(Tx, Next(Tx, s, Take(it)), LoadingSteps(it), [Send]);
    RunOne(Tx, Loaded(s, it), Send);
  }

  lemma ResumedSendFails(s: State, a: nat, m: nat)
    requires Shape(Tx, s) && Intact(Tx, s) && FillAt(s, a, m) && m <= 4 && a < |s.submitted|
    requires s.submitted[a].slot == SLOT * s.idx && m < |s.submitted[a].item.data|
    ensures var it := Clobber(Tx, s.submitted[a].item.data[m], m);
            Fits(Tx, it) && !Survives(Tx, Next(Tx, s, Take(it)))
  {
    var it := Clobber(Tx, s.submitted[a].item.data[m], m);
    Clobbers(Tx, s.submitted[a].item.data[m], m);
    assert it.len == |it.data| == m + 1;
    hide Shape, Intact, Fits, Next, Clobber, Survives, LoadingSteps, Run, FillAt, SentItem, Looming;
    SendingIs(s, it);
    SentLooms(s, it, a, m);
    ShapeKept(Tx, s, Take(it));
    LoomingFails(Next(Tx, s, Take(it)), LoadingSteps(it) + [Send], |s.submitted|, a, m);
  }

  lemma LoomingFails(r: State, first: seq<Step>, b: nat, a: nat, m: nat)
    requires Shape(Tx, r) && Handling(first) && Looming(Run(Tx, r, first), b, a, m)
    ensures !Survives(Tx, r)
  {
    hide Shape, Survives, Run, Looming, Doomed;
    RunShape(Tx, r, first);
    var more := LoomEnds(Run(Tx, r, first), b, a, m);
    RunAppend(Tx, r, first, more);
    ThenFails(Tx, r, first + more, b, m);
  }

  // A marker that is still to come.

  /** The state in which it has fallen on the new packet. */
  function Over(s: State): (r: State)
    requires SLOT * s.idx + 4 <= |s.mem| && !s.cons.Waiting?
  {
    var p := SLOT * s.idx;
    s.(mem := Marked(Filled(s.mem, p, [0]), p), idx := (s.idx + 1) % RINGS,
       fills := s.fills + [Fill(|s.submitted|, 1, s.idx, true)], cons := Waiting,
       submitted := s.submitted + [Entry(Item([0], 1), p)],
       delivered := s.delivered + if s.cons.Reading? then [Delivery(s.cons.letter.j, s.cons.got)] else [])
  }

  function MarkingSteps(s: State): (steps: seq<Step>) {
    (if s.cons.Reading? then [Finish] else []) + [Mark]
  }

  lemma OverIs(s: State)
    requires Shape(Tx, s) && !s.cons.Waiting? && s.cons.letter.msg.ptr == SLOT * s.idx
    requires s.cons.Reading? ==> |s.cons.got| == s.cons.want
    ensures SLOT * s.idx + 4 <= |s.mem|
    ensures Run(Tx, Loaded(s, Item([0], 1)), MarkingSteps(s)) == Over(s)
  {
    IndexSlot(s.idx);
    hide Shape, Marked, Filled;
    var a := Loaded(s, Item([0], 1));
    var b := if s.cons.Reading? then Next(Tx, a, Finish) else a;
    assert b.cons == Marking(s.cons.letter) && b.mem == a.mem && b.fills == a.fills;
    assert Next(Tx, b, Mark) == Over(s);
    hide Next, Loaded, Over;
    TwoSteps(a, b, s.cons.Reading?);
  }

  lemma TwoSteps(a: State, b: State, reading: bool)
    requires b == if reading then Next(Tx, a, Finish) else a
    ensures Run(Tx, a, (if reading then [Finish] else []) + [Mark]) == Next(Tx, b, Mark)
  {
    hide Next;
    RunOne(Tx, b, Mark);
    if reading {
      RunCons(Tx, a, Finish, [Mark]);
    } else {
      assert [] + [Mark] == [Mark];
    }
  }

  lemma OverDoomed(s: State)
    requires Shape(Tx, s) && Intact(Tx, s) && !s.cons.Waiting? && s.cons.letter.j < |s.submitted|
    requires s.submitted[s.cons.letter.j].slot == SLOT * s.idx && SLOT * s.idx + 4 <= |s.mem|
    ensures Doomed(Tx, Over(s), |s.submitted|, 0)
  {
    var n, c := |s.submitted|, Over(s);
    var p := SLOT * s.idx;
    MarkedThere(Filled(s.mem, p, [0]), p, 0);
    FillsOld(s);
    assert c.fills[|s.fills|].j == n && Written(c, n, 0);
    assert Unfinished(c) == s.queue;
    forall q | 0 <= q < |s.queue| && s.queue[q].j != n
      ensures !SameSlot(c, s.queue[q].j, n)
    {
      QueueApart(s, q);
    }
    assert Uncovered(Tx, c, n, 0);
    hide Shape, Intact, Marked, Filled;
    assert c.submitted[n] == Entry(Item([0], 1), p) && c.mem[p] == 0x0F;
  }

  lemma QueueApart(s: State, q: nat)
    requires Shape(Tx, s) && Intact(Tx, s) && !s.cons.Waiting? && q < |s.queue| && s.cons.letter.j < |s.submitted|
    ensures s.queue[q].j < |s.submitted| && !SameSlot(s, s.queue[q].j, s.cons.letter.j)
  {
    LettersOld(Tx, s, 0);
    LettersOld(Tx, s, q + 1);
    assert Unfinished(s)[0] == s.cons.letter && Unfinished(s)[q + 1] == s.queue[q];
    assert s.queue[q].j != s.cons.letter.j by { hide EntriesShape, LettersShape, FillsShape; }
    hide Shape, Wanted, Held;
  }

  lemma LateMarkerFails(s: State)
    requires Shape(Tx, s) && Intact(Tx, s) && !s.cons.Waiting? && s.cons.letter.j < |s.submitted|
    requires s.submitted[s.cons.letter.j].slot == SLOT * s.idx
    requires s.cons.Reading? ==> |s.cons.got| == s.cons.want
    ensures Fits(Tx, Item([0], 1)) && !Survives(Tx, Next(Tx, s, Take(Item([0], 1))))
  {
    var it := Item([0], 1);
    LettersOld(Tx, s, 0);
    assert s.cons.letter.msg.ptr == SLOT * s.idx;
    assert Fits(Tx, it);
    hide Shape, Intact, Fits, Next, Survives, LoadingSteps, Run, Loaded, Over, Doomed, MarkingSteps;
    LoadingIs(Tx, s, it);
    OverIs(s);
    OverDoomed(s);
    ShapeKept(Tx, s, Take(it));
    MarkingHandles(s);
    BothFail(Next(Tx, s, Take(it)), LoadingSteps(it), MarkingSteps(s), |s.submitted|);
  }

  lemma MarkingHandles(s: State)
    ensures Handling(MarkingSteps(s))
  {}

  lemma BothFail(r: State, first: seq<Step>, more: seq<Step>, j: nat)
    requires Shape(Tx, r) && Handling(first) && Handling(more)
    requires Doomed(Tx, Run(Tx, Run(Tx, r, first), more), j, 0)
    ensures !Survives(Tx, r)
  {
    hide Shape, Survives, Run, Doomed;
    RunAppend(Tx, r, first, more);
    RunShape(Tx, r, first + more);
    ThenFails(Tx, r, first + more, j, 0);
  }

  // All cases together.

  lemma ClashFails(way: Way, s: State) returns (it: Item)
    requires Shape(way, s) && Intact(way, s) && Clash(way, s) && (way.Rx? ==> s.fills == [])
    requires way.Tx? ==> forall j :: 0 <= j < |s.submitted| ==> |s.submitted[j].item.data| > 4
    ensures Fits(way, it) && !Survives(way, Next(way, s, Take(it)))
  {
    if way.Rx? {
      var j: nat, i: nat :| Wanted(way, s, j, i) && s.submitted[j].slot == SLOT * s.idx;
      it := Clobber(way, s.submitted[j].item.data[i], i);
      OverwriteFails(way, s, j, i);
    } else {
      var a: nat :| InUse(s, a) && s.submitted[a].slot == SLOT * s.idx;
      hide Intact, Survives, Clash;
      if IsFilling(s, a) {
        it := SuspendedFails(s, a);
      } else {
        it := UnfinishedFails(s, a);
      }
    }
  }

  lemma SuspendedFails(s: State, a: nat) returns (it: Item)
    requires Shape(Tx, s) && Intact(Tx, s) && IsFilling(s, a) && InUse(s, a)
    requires s.submitted[a].slot == SLOT * s.idx && |s.submitted[a].item.data| > 4
    ensures Fits(Tx, it) && !Survives(Tx, Next(Tx, s, Take(it)))
  {
    var p :| 0 <= p < |s.fills| && s.fills[p].j == a;
    var m := s.fills[p].n;
    assert FillAt(s, a, m);
    if m <= 4 {
      it := Clobber(Tx, s.submitted[a].item.data[m], m);
      ResumedSendFails(s, a, m);
    } else {
      assert Written(s, a, 4);
      EntryFits(Tx, s, a);
      assert Wanted(Tx, s, a, 4);
      AloneUnmarked(s, a, 4);
      it := Clobber(Tx, s.submitted[a].item.data[4], 4);
      OverwriteFails(Tx, s, a, 4);
    }
  }

  lemma UnfinishedFails(s: State, a: nat) returns (it: Item)
    requires Shape(Tx, s) && Intact(Tx, s) && !IsFilling(s, a) && InUse(s, a)
    requires s.submitted[a].slot == SLOT * s.idx
    ensures Fits(Tx, it) && !Survives(Tx, Next(Tx, s, Take(it)))
  {
    EntryFits(Tx, s, a);
    AloneUnmarked(s, a, 0);
    if InQueue(s, a) {
      assert Wanted(Tx, s, a, 0);
      it := Clobber(Tx, s.submitted[a].item.data[0], 0);
      OverwriteFails(Tx, s, a, 0);
    } else if s.cons.Reading? && |s.cons.got| < s.cons.want {
      var i := |s.cons.got|;
      AloneUnmarked(s, a, i);
      assert Wanted(Tx, s, a, i) by { ReadingWanted(s); }
      it := Clobber(Tx, s.submitted[a].item.data[i], i);
      OverwriteFails(Tx, s, a, i);
    } else {
      assert s.cons.Reading? ==> |s.cons.got| == s.cons.want by { hide EntriesShape, FillsShape, OrderShape; }
      it := Item([0], 1);
      LateMarkerFails(s);
    }
  }

  lemma ReadingWanted(s: State)
    requires Shape(Tx, s) && s.cons.Reading? && |s.cons.got| < s.cons.want
    ensures Wanted(Tx, s, s.cons.letter.j, |s.cons.got|)
  {
    EntryFits(Tx, s, s.cons.letter.j);
    hide EntriesShape, FillsShape, OrderShape, Fits;
  }

  /** Exactly: after any careful run, the next slot can be handed out for whatever
      item without harm to any delivery if and only if there is no clash. On
      transmit this is at any moment, also inside other sends; it takes packets
      of more than 4 bytes, which an Ethernet header alone exceeds, because a
      shorter one could look like the marker. */
  lemma TakeExact(way: Way, s: State, steps: seq<Step>)
    requires Boot(s) && Careful(way, s, steps) && (way.Rx? ==> Run(way, s, steps).fills == [])
    requires var r := Run(way, s, steps);
             way.Tx? ==> forall j :: 0 <= j < |r.submitted| ==> |r.submitted[j].item.data| > 4
    ensures var r := Run(way, s, steps);
            (forall it :: Fits(way, it) ==> Survives(way, Next(way, r, Take(it)))) <==> !Clash(way, r)
  {
    hide Careful, Shape, Intact, Run, Boot, Survives, Next, Clash, Fits;
    BootIntact(way, s);
    RunIntact(way, s, steps);
    var r := Run(way, s, steps);
    if Clash(way, r) {
      var it := ClashFails(way, r);
      assert Fits(way, it);
    } else {
      forall it | Fits(way, it)
        ensures Survives(way, Next(way, r, Take(it)))
      {
        TakeSurvives(way, s, steps, it);
      }
    }
  }
}
