/** What the conditions of RingSafety, RingExact and RingTake come to, message by
    message and by counting; and short runs in which the code as it stands
    transmits a wrong byte. */
module RingCases {
  import opened Words
  import opened RingHandoff
  import opened RingSafety
  import opened RingExact

  // READY.

  /** Bytes `from` up to `to` are the marker's, where they lie under it. */
  predicate LooksMarked(data: seq<Byte>, from: nat, to: nat) {
    forall i :: from <= i < to && i < 4 && i < |data| ==> data[i] == MARKER[i]
  }

  /** When READY is harmless on transmit, message by message: every packet in the
      queue, the unread rest of the one being read, and the written part of every
      one being written must look like the marker where it will fall. */
  ghost predicate QuietEnough(s: State) {
    && (forall q :: 0 <= q < |s.queue| && s.queue[q].j < |s.submitted| ==>
          LooksMarked(s.submitted[s.queue[q].j].item.data, 0, 4))
    && (s.cons.Reading? && s.cons.letter.j < |s.submitted| ==>
          LooksMarked(s.submitted[s.cons.letter.j].item.data, |s.cons.got|, 4))
    && (forall p :: 0 <= p < |s.fills| && s.fills[p].j < |s.submitted| ==>
          LooksMarked(s.submitted[s.fills[p].j].item.data, 0, s.fills[p].n))
  }

  lemma QuietIsHarmless(s: State, k: nat)
    requires QuietEnough(s)
    ensures Harmless(Tx, s, k)
  {
    hide End;
  }

  /** Every slot has its turn. */
  lemma NoneHarmed(s: State, j: nat, i: nat)
    requires Shape(Tx, s) && (forall k :: 0 <= k < RINGS ==> Harmless(Tx, s, k)) && Wanted(Tx, s, j, i) && i < 4
    ensures s.submitted[j].item.data[i] == MARKER[i]
  {
    WantedInside(Tx, s, j, i);
    hide Shape, Wanted;
    var k := s.submitted[j].slot / SLOT;
    assert s.submitted[j].slot == SLOT * k && k < RINGS;
    assert Harmless(Tx, s, k);
  }

  lemma QueuedQuiet(s: State, q: nat)
    requires Shape(Tx, s) && (forall k :: 0 <= k < RINGS ==> Harmless(Tx, s, k)) && q < |s.queue|
    ensures s.queue[q].j < |s.submitted| && LooksMarked(s.submitted[s.queue[q].j].item.data, 0, 4)
  {
    var j := s.queue[q].j;
    assert LetterOk(Tx, s.submitted, s.queue[q]);
    EntryFits(Tx, s, j);
    assert InQueue(s, j);
    hide Shape, Harmless, InQueue;
    forall i | 0 <= i < 4 && i < |s.submitted[j].item.data|
      ensures s.submitted[j].item.data[i] == MARKER[i]
    {
      NoneHarmed(s, j, i);
    }
  }

  lemma ReadingQuiet(s: State)
    requires Shape(Tx, s) && (forall k :: 0 <= k < RINGS ==> Harmless(Tx, s, k)) && s.cons.Reading?
    ensures s.cons.letter.j < |s.submitted|
    ensures LooksMarked(s.submitted[s.cons.letter.j].item.data, |s.cons.got|, 4)
  {
    var j := s.cons.letter.j;
    assert LetterOk(Tx, s.submitted, s.cons.letter) && MayTake(Tx, s.cons.letter.msg.len, s.cons.want);
    EntryFits(Tx, s, j);
    hide Shape, Harmless, InQueue;
    forall i | |s.cons.got| <= i < 4 && i < |s.submitted[j].item.data|
      ensures s.submitted[j].item.data[i] == MARKER[i]
    {
      NoneHarmed(s, j, i);
    }
  }

  lemma FillingQuiet(s: State, p: nat)
    requires Shape(Tx, s) && (forall k :: 0 <= k < RINGS ==> Harmless(Tx, s, k)) && p < |s.fills|
    ensures s.fills[p].j < |s.submitted| && LooksMarked(s.submitted[s.fills[p].j].item.data, 0, s.fills[p].n)
  {
    var j := s.fills[p].j;
    assert FillOk(s, s.fills[p]);
    EntryFits(Tx, s, j);
    hide Shape, Harmless, InQueue;
    forall i | 0 <= i < s.fills[p].n && i < 4 && i < |s.submitted[j].item.data|
      ensures s.submitted[j].item.data[i] == MARKER[i]
    {
      assert Written(s, j, i);
      NoneHarmed(s, j, i);
    }
  }

  /** READY on transmit, exactly, in terms of the messages: after any careful run
      it spoils no delivery if and only if every byte it would overwrite has been
      read, or is not yet written, or is the marker's own. */
  lemma ReadyHarmlessExactly(s: State, steps: seq<Step>)
    requires Boot(s) && Careful(Tx, s, steps)
    ensures var r := Run(Tx, s, steps);
            Survives(Tx, Run(Tx, r, Stamps(RINGS))) <==> QuietEnough(r)
  {
    hide Careful, Run, Harmless, Survives, Boot, Shape;
    ReadyStampsExact(s, steps);
    BootShape(Tx, s);
    RunShape(Tx, s, steps);
    var r := Run(Tx, s, steps);
    if QuietEnough(r) {
      forall k | 0 <= k < RINGS ensures Harmless(Tx, r, k) { QuietIsHarmless(r, k); }
    }
    if forall k :: 0 <= k < RINGS ==> Harmless(Tx, r, k) {
      forall q | 0 <= q < |r.queue|
        ensures r.queue[q].j < |r.submitted| && LooksMarked(r.submitted[r.queue[q].j].item.data, 0, 4)
      {
        QueuedQuiet(r, q);
      }
      forall p | 0 <= p < |r.fills|
        ensures r.fills[p].j < |r.submitted| && LooksMarked(r.submitted[r.fills[p].j].item.data, 0, r.fills[p].n)
      {
        FillingQuiet(r, p);
      }
      if r.cons.Reading? {
        ReadingQuiet(r);
      }
    }
  }

  // Counting.

  /** The slot of the submission numbered `j`, when every index update was left
      alone. */
  function Base(j: nat): (p: nat) { SLOT * (j % RINGS) }

  /** The running send has yet to write the index back. */
  predicate Updating(s: State) { |s.fills| > 0 && !Top(s).stored }

  /** Slots go round in the order of submission, and only the running send can be
      in the middle of its update. */
  predicate Numbered(s: State) {
    && (forall j :: 0 <= j < |s.submitted| ==> s.submitted[j].slot == Base(j))
    && (forall p :: 0 <= p < |s.fills| - 1 ==> s.fills[p].stored)
    && (if Updating(s) then |s.submitted| > 0 && Top(s).j == |s.submitted| - 1 && Top(s).seen == s.idx &&
                            s.idx == (|s.submitted| - 1) % RINGS
        else s.idx == |s.submitted| % RINGS)
  }

  lemma NextBase(n: nat)
    ensures (n % RINGS + 1) % RINGS == (n + 1) % RINGS
  {}

  lemma NumberedTake(way: Way, s: State, it: Item)
    requires Shape(way, s) && Numbered(s) && !(way.Tx? && Clash(way, s))
    ensures Numbered(Next(way, s, Take(it)))
  {
    if way.Tx? && Updating(s) {
      TopRuns(way, s);
      hide Shape, Clash;
      UpdateClashes(s);
    }
    hide Shape, Fits, Clash;
  }

  lemma NumberedStep(way: Way, s: State, t: Step)
    requires Shape(way, s) && Numbered(s) && !t.Take?
    ensures Numbered(Next(way, s, t))
  {
    if |s.submitted| > 0 {
      NextBase(|s.submitted| - 1);
    }
    hide Shape, Marked, Fits;
  }

  lemma {:induction false} RunNumbered(way: Way, s: State, steps: seq<Step>)
    requires Boot(s) && Careful(way, s, steps)
    ensures Numbered(Run(way, s, steps))
  {
    hide Next, Clash, Harmless;
    if |steps| > 0 {
      var before, t := steps[..|steps| - 1], steps[|steps| - 1];
      RunNumbered(way, s, before);
      BootShape(way, s);
      RunShape(way, s, before);
      hide Numbered, Shape, Run;
      if t.Take? {
        NumberedTake(way, Run(way, s, before), t.item);
      } else {
        NumberedStep(way, Run(way, s, before), t);
      }
    }
  }

  /** On transmit only the last six submissions can be in use. */
  ghost predicate Windowed(s: State) {
    forall j: nat :: InUse(s, j) ==> |s.submitted| <= j + RINGS
  }

  lemma WindowedTake(s: State, it: Item)
    requires Shape(Tx, s) && Numbered(s) && Windowed(s) && !Clash(Tx, s)
    ensures Windowed(Next(Tx, s, Take(it)))
  {
    var r := Next(Tx, s, Take(it));
    if r != s {
      assert !Updating(s) by { NotUpdating(s); }
      forall j: nat | InUse(r, j)
        ensures |r.submitted| <= j + RINGS
      {
        TakenInUse(Tx, s, it, j);
        hide Shape, Fits, InUse;
        if j + RINGS == |s.submitted| {
          SixApart(j);
        }
      }
    }
  }

  lemma SixApart(j: nat)
    ensures Base(j) == SLOT * ((j + RINGS) % RINGS)
  {}

  lemma NotUpdating(s: State)
    requires Shape(Tx, s) && Numbered(s) && !Clash(Tx, s)
    ensures !Updating(s)
  {
    if Updating(s) {
      TopRuns(Tx, s);
      hide Shape, Clash;
      UpdateClashes(s);
    }
  }

  lemma {:induction false} RunWindowed(s: State, steps: seq<Step>)
    requires Boot(s) && Careful(Tx, s, steps)
    ensures Windowed(Run(Tx, s, steps))
  {
    hide Next, Clash, Harmless;
    if |steps| > 0 {
      var before, t := steps[..|steps| - 1], steps[|steps| - 1];
      RunWindowed(s, before);
      BootShape(Tx, s);
      RunShape(Tx, s, before);
      RunNumbered(Tx, s, before);
      var p := Run(Tx, s, before);
      hide Numbered, Shape, Run;
      if t.Take? {
        WindowedTake(p, t.item);
      } else {
        forall j: nat | InUse(Next(Tx, p, t), j)
          ensures InUse(p, j) && Next(Tx, p, t).submitted == p.submitted
        {
          StillInUse(Tx, p, t, j);
        }
        assert Next(Tx, p, t).submitted == p.submitted by { SameSubmitted(Tx, p, t); }
      }
    }
  }

  lemma SameSubmitted(way: Way, s: State, t: Step)
    requires !t.Take?
    ensures Next(way, s, t).submitted == s.submitted
  {
    hide Marked;
  }

  /** The transmit condition at any moment of any careful run, nested sends
      included: there is a clash if and only if an index update is under way, or
      the submission six before the next one is still in use, as an unfinished
      message or as a suspended send. */
  lemma TxClashIs(s: State, steps: seq<Step>)
    requires Boot(s) && Careful(Tx, s, steps)
    ensures var r := Run(Tx, s, steps);
            Clash(Tx, r) <==> Updating(r) || (|r.submitted| >= RINGS && InUse(r, |r.submitted| - RINGS))
  {
    hide Careful, Boot;
    RunNumbered(Tx, s, steps);
    RunWindowed(s, steps);
    assert Shape(Tx, Run(Tx, s, steps)) by { hide Run; BootShape(Tx, s); RunShape(Tx, s, steps); }
    hide Run;
    ClashNumber(Run(Tx, s, steps));
  }

  lemma ClashNumber(r: State)
    requires Shape(Tx, r) && Numbered(r) && Windowed(r)
    ensures Clash(Tx, r) <==> Updating(r) || (|r.submitted| >= RINGS && InUse(r, |r.submitted| - RINGS))
  {
    var n := |r.submitted|;
    if Updating(r) {
      TopRuns(Tx, r);
      UpdateClashes(r);
    } else {
      hide Shape;
      if n >= RINGS && InUse(r, n - RINGS) {
        SixApart(n - RINGS);
      }
      if Clash(Tx, r) {
        var j: nat :| InUse(r, j) && r.submitted[j].slot == SLOT * r.idx;
        assert j < n && n <= j + RINGS && Base(j) == SLOT * (n % RINGS) by { hide Clash; UseOld(r, j); }
        SameBase(j, n);
      }
    }
  }

  lemma UseOld(r: State, j: nat)
    requires InUse(r, j)
    ensures j < |r.submitted|
  {}

  lemma SameBase(j: nat, n: nat)
    requires j < n <= j + RINGS && Base(j) == SLOT * (n % RINGS)
    ensures n == j + RINGS
  {}

  // Sends that do not interrupt each other.

  /** Every slot of the run is taken while no other send is under way. */
  predicate InTurn(way: Way, s: State, steps: seq<Step>) {
    |steps| > 0 ==>
      && InTurn(way, s, steps[..|steps| - 1])
      && (steps[|steps| - 1].Take? ==> Run(way, s, steps[..|steps| - 1]).fills == [])
  }

  /** Then packets are announced in the order they were submitted. */
  predicate Sequential(s: State) {
    && |s.fills| <= 1 && |s.submitted| == |s.sent| + |s.fills|
    && (forall k :: 0 <= k < |s.sent| ==> s.sent[k] == k)
    && (|s.fills| == 1 ==> s.fills[0].j == |s.sent|)
  }

  lemma SequentialKept(s: State, t: Step)
    requires Sequential(s) && (t.Take? ==> s.fills == [])
    ensures Sequential(Next(Tx, s, t))
  {
    hide Marked, Fits;
  }

  lemma {:induction false} RunSequential(s: State, steps: seq<Step>)
    requires Boot(s) && InTurn(Tx, s, steps)
    ensures Sequential(Run(Tx, s, steps))
  {
    hide Next;
    if |steps| > 0 {
      RunSequential(s, steps[..|steps| - 1]);
      hide Sequential;
      SequentialKept(Run(Tx, s, steps[..|steps| - 1]), steps[|steps| - 1]);
    }
  }

  lemma UnfinishedNumber(r: State, q: nat)
    requires Shape(Tx, r) && Sequential(r) && r.fills == [] && q < |Unfinished(r)|
    ensures Unfinished(r)[q].j == |r.submitted| - |Unfinished(r)| + q
  {
    hide EntriesShape, LettersShape, FillsShape;
    var c := |Unfinished(r)| - |r.queue|;
    assert q >= c ==> Unfinished(r)[q] == r.queue[q - c];
  }

  lemma InUseNumber(r: State, j: nat)
    requires Shape(Tx, r) && Sequential(r) && r.fills == [] && j < |r.submitted|
    ensures InUse(r, j) <==> j >= |r.submitted| - |Unfinished(r)|
  {
    var m := |r.submitted| - |Unfinished(r)|;
    assert !IsFilling(r, j);
    UnfinishedInUse(r, j);
    hide IsFilling, InUse;
    if exists q :: 0 <= q < |Unfinished(r)| && Unfinished(r)[q].j == j {
      var q :| 0 <= q < |Unfinished(r)| && Unfinished(r)[q].j == j;
      UnfinishedNumber(r, q);
    } else if j >= m {
      UnfinishedNumber(r, j - m);
    }
  }

  lemma UnfinishedInUse(r: State, j: nat)
    requires !IsFilling(r, j) && j < |r.submitted|
    ensures InUse(r, j) <==> exists q :: 0 <= q < |Unfinished(r)| && Unfinished(r)[q].j == j
  {
    hide IsFilling;
    var c := |Unfinished(r)| - |r.queue|;
    assert forall q :: 0 <= q < |r.queue| ==> Unfinished(r)[q + c] == r.queue[q];
    assert c == 1 ==> Unfinished(r)[0] == r.cons.letter;
    if InQueue(r, j) {
      var q :| 0 <= q < |r.queue| && r.queue[q].j == j;
      assert Unfinished(r)[q + c].j == j;
    }
    if exists q :: 0 <= q < |Unfinished(r)| && Unfinished(r)[q].j == j {
      var q :| 0 <= q < |Unfinished(r)| && Unfinished(r)[q].j == j;
      assert q >= c ==> r.queue[q - c] == Unfinished(r)[q];
    }
  }

  /** One send at a time: the slot is in use if and only if 6 messages are
      unfinished, so with fewer than 6 whenever a slot is taken every packet is
      transmitted right, in the order of submission. */
  lemma SlotClash(s: State, steps: seq<Step>)
    requires Boot(s) && Careful(Tx, s, steps) && InTurn(Tx, s, steps) && Run(Tx, s, steps).fills == []
    ensures var r := Run(Tx, s, steps);
            && (Clash(Tx, r) <==> |Unfinished(r)| >= RINGS)
            && (forall k :: 0 <= k < |r.delivered| ==> r.delivered[k].j == k)
  {
    hide Careful, Clash, Next, Boot;
    TxClashIs(s, steps);
    RunSequential(s, steps);
    assert Shape(Tx, Run(Tx, s, steps)) by { hide Run; BootShape(Tx, s); RunShape(Tx, s, steps); }
    var r := Run(Tx, s, steps);
    hide Run, InTurn, InUse;
    if |r.submitted| >= RINGS {
      InUseNumber(r, |r.submitted| - RINGS);
    }
    hide EntriesShape, LettersShape, FillsShape;
  }

  // Receiving.

  /** Only the last six frames can have bytes to be read, and the frame being read
      in is the last. */
  ghost predicate RxWindowed(s: State) {
    && (forall j: nat, i: nat :: Wanted(Rx, s, j, i) ==> |s.submitted| <= j + RINGS)
    && (forall p :: 0 <= p < |s.fills| ==> s.fills[p].j == |s.submitted| - 1)
  }

  lemma RxWindowedTake(s: State, it: Item)
    requires Shape(Rx, s) && Numbered(s) && RxWindowed(s) && !Clash(Rx, s)
    ensures RxWindowed(Next(Rx, s, Take(it)))
  {
    var r := Next(Rx, s, Take(it));
    if r != s {
      assert s.fills == [];
      forall j: nat, i: nat | Wanted(Rx, r, j, i)
        ensures |r.submitted| <= j + RINGS
      {
        TakenWanted(Rx, s, it, j, i);
        hide Shape, Fits, Wanted;
        if j + RINGS == |s.submitted| {
          SixApart(j);
        }
      }
      hide Shape, Wanted, Clash;
    }
  }

  lemma RxWindowedStep(s: State, t: Step)
    requires Shape(Rx, s) && RxWindowed(s) && !t.Take?
    ensures RxWindowed(Next(Rx, s, t))
  {
    SameSubmitted(Rx, s, t);
    var r := Next(Rx, s, t);
    forall j: nat, i: nat | Wanted(Rx, r, j, i)
      ensures |s.submitted| <= j + RINGS
    {
      StillWanted(Rx, s, t, j, i);
    }
    forall p | 0 <= p < |r.fills|
      ensures r.fills[p].j == |s.submitted| - 1
    {
      assert IsFilling(r, r.fills[p].j);
      RxFilling(s, t, r.fills[p].j);
    }
    hide Wanted, Next, Shape;
  }

  lemma {:induction false} RunRxWindowed(s: State, steps: seq<Step>)
    requires Boot(s) && Careful(Rx, s, steps)
    ensures RxWindowed(Run(Rx, s, steps))
  {
    hide Next, Clash, Harmless;
    if |steps| > 0 {
      var before, t := steps[..|steps| - 1], steps[|steps| - 1];
      RunRxWindowed(s, before);
      BootShape(Rx, s);
      RunShape(Rx, s, before);
      RunNumbered(Rx, s, before);
      hide Numbered, Shape, Run, RxWindowed;
      if t.Take? {
        RxWindowedTake(Run(Rx, s, before), t.item);
      } else {
        RxWindowedStep(Run(Rx, s, before), t);
      }
    }
  }

  /** The receive condition: the slot must not be reused if and only if the message
      of its last frame is waiting and not empty, or being read and not yet read
      to its end. A message that has been read and lacks only its marker does not
      count; a frame that sent no message counts as a slot all the same. */
  lemma RxClashIs(s: State, steps: seq<Step>)
    requires Boot(s) && Careful(Rx, s, steps) && Run(Rx, s, steps).fills == []
    ensures var r := Run(Rx, s, steps);
            Clash(Rx, r) <==> |r.submitted| >= RINGS && Pending(r, |r.submitted| - RINGS)
  {
    hide Careful, Boot, Clash, Next, Pending;
    RunNumbered(Rx, s, steps);
    RunRxWindowed(s, steps);
    assert Shape(Rx, Run(Rx, s, steps)) by { hide Run; BootShape(Rx, s); RunShape(Rx, s, steps); }
    hide Run;
    RxClashNumber(Run(Rx, s, steps));
  }

  /** The message of frame `j` has bytes to be read. */
  predicate Pending(s: State, j: nat)
    requires j < |s.submitted|
  {
    || (InQueue(s, j) && s.submitted[j].item.len > 0)
    || (s.cons.Reading? && s.cons.letter.j == j && |s.cons.got| < s.cons.want)
  }

  lemma PendingWanted(s: State, j: nat)
    requires Shape(Rx, s) && s.fills == [] && j < |s.submitted|
    ensures Pending(s, j) <==> exists i: nat :: Wanted(Rx, s, j, i)
  {
    EntryFits(Rx, s, j);
    assert s.cons.Reading? ==>
      LetterOk(Rx, s.submitted, s.cons.letter) && MayTake(Rx, s.cons.letter.msg.len, s.cons.want);
    hide Shape, Fits;
    if InQueue(s, j) && s.submitted[j].item.len > 0 {
      assert Wanted(Rx, s, j, 6);
    }
    if s.cons.Reading? && s.cons.letter.j == j && |s.cons.got| < s.cons.want {
      assert Wanted(Rx, s, j, 6 + |s.cons.got|);
    }
  }

  lemma RxClashNumber(r: State)
    requires Shape(Rx, r) && Numbered(r) && RxWindowed(r) && r.fills == []
    ensures Clash(Rx, r) <==> |r.submitted| >= RINGS && Pending(r, |r.submitted| - RINGS)
  {
    var n := |r.submitted|;
    if n >= RINGS {
      PendingWanted(r, n - RINGS);
      SixApart(n - RINGS);
    }
    hide Shape, Pending;
    if Clash(Rx, r) {
      var j: nat, i: nat :| Wanted(Rx, r, j, i) && r.submitted[j].slot == SLOT * r.idx;
      assert j < n <= j + RINGS && Base(j) == SLOT * (n % RINGS);
      SameBase(j, n);
    }
  }
}
