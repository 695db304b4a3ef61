/** When the slot rings deliver what was submitted: the bytes still to be read,
    the two ways a step can spoil them, and the theorem that a run without such
    steps delivers every packet right, in both directions. */
module RingSafety {
  import opened Words
  import opened RingHandoff

  /** `got` is the beginning of what the item announces. */
  predicate Part(way: Way, it: Item, got: seq<Byte>) {
    Header(way) + |got| <= |it.data| && got == it.data[Header(way)..Header(way) + |got|]
  }

  /** A delivery is right if it is what a reader of that item should end up with. */
  predicate Right(way: Way, es: seq<Entry>, d: Delivery) {
    d.j < |es| && Part(way, es[d.j].item, d.bytes) && MayTake(way, es[d.j].item.len, |d.bytes|)
  }

  predicate AllRight(way: Way, s: State) {
    forall i :: 0 <= i < |s.delivered| ==> Right(way, s.submitted, s.delivered[i])
  }

  predicate InQueue(s: State, j: nat) {
    exists q :: 0 <= q < |s.queue| && s.queue[q].j == j
  }

  /** Byte `i` has been copied by the send of `j`, which is still under way. */
  predicate Written(s: State, j: nat, i: nat) {
    exists p :: 0 <= p < |s.fills| && s.fills[p].j == j && i < s.fills[p].n
  }

  /** Byte `i` of submission `j` lies in its slot and may still be read. */
  predicate Wanted(way: Way, s: State, j: nat, i: nat) {
    && j < |s.submitted| && i < |s.submitted[j].item.data|
    && Header(way) <= i < End(way, s.submitted[j].item)
    && (|| InQueue(s, j)
        || (s.cons.Reading? && s.cons.letter.j == j && Header(way) + |s.cons.got| <= i < Header(way) + s.cons.want)
        || Written(s, j, i))
  }

  /** The slot of submission `j` is in use: its message is unfinished, or its send
      is under way, suspended or not. */
  predicate InUse(s: State, j: nat) {
    j < |s.submitted| && (InQueue(s, j) || (!s.cons.Waiting? && s.cons.letter.j == j) || IsFilling(s, j))
  }

  predicate SameSlot(s: State, a: nat, b: nat) {
    a < |s.submitted| && b < |s.submitted| && s.submitted[a].slot == s.submitted[b].slot
  }

  /** The slot does hold that byte. */
  predicate Held(s: State, j: nat, i: nat) {
    && j < |s.submitted| && i < |s.submitted[j].item.data| && s.submitted[j].slot + i < |s.mem|
    && s.mem[s.submitted[j].slot + i] == s.submitted[j].item.data[i]
  }

  /** On transmit no slot is in use twice; on receive nobody writes a slot that is
      still to be read. */
  ghost predicate Separate(way: Way, s: State) {
    if way.Tx? then forall a: nat, b: nat :: InUse(s, a) && InUse(s, b) && SameSlot(s, a, b) ==> a == b
    else forall a: nat, j: nat, i: nat :: IsFilling(s, a) && Wanted(way, s, j, i) && SameSlot(s, a, j) ==> a == j
  }

  ghost predicate Intact(way: Way, s: State) {
    && (forall j: nat, i: nat :: Wanted(way, s, j, i) ==> Held(s, j, i))
    && Separate(way, s)
    && (s.cons.Reading? && s.cons.letter.j < |s.submitted| ==>
          Part(way, s.submitted[s.cons.letter.j].item, s.cons.got))
    && AllRight(way, s)
  }

  // The steps that can do damage.

  /** Handing out the next slot can spoil a delivery. On transmit that is so as
      long as the slot is in use at all: by a packet waiting to be read, by a
      message whose marker is yet to come and will fall on the new packet, or by a
      send that this one has interrupted. On receive the marker falls on the frame
      header, and only unread bytes count. */
  ghost predicate Clash(way: Way, s: State) {
    if way.Tx? then exists j: nat :: InUse(s, j) && s.submitted[j].slot == SLOT * s.idx
    else exists j: nat, i: nat :: Wanted(way, s, j, i) && s.submitted[j].slot == SLOT * s.idx
  }

  /** Stamping slot `k` changes no byte that is still to be read. */
  ghost predicate Harmless(way: Way, s: State, k: nat) {
    forall j: nat, i: nat :: Wanted(way, s, j, i) && s.submitted[j].slot == SLOT * k && i < 4 ==>
      s.submitted[j].item.data[i] == MARKER[i]
  }

  ghost predicate StepOk(way: Way, s: State, t: Step) {
    && (t.Take? ==> !Clash(way, s))
    && (t.Stamp? ==> Harmless(way, s, t.k))
  }

  /** No step of the run can do damage where it stands. */
  ghost predicate Careful(way: Way, s: State, steps: seq<Step>) {
    |steps| > 0 ==>
      && Careful(way, s, steps[..|steps| - 1])
      && StepOk(way, Run(way, s, steps[..|steps| - 1]), steps[|steps| - 1])
  }

  /** On receive a stamp only ever hits frame headers. */
  lemma RxStampHarmless(s: State, k: nat)
    ensures Harmless(Rx, s, k)
  {}

  /** A send whose index update is interrupted has the slot that the interrupting
      one would be given, so the condition rules that out as well. */
  lemma UpdateClashes(s: State)
    requires Running(s) && !Top(s).stored && EntryOf(s).slot == SLOT * s.idx
    ensures Clash(Tx, s)
  {
    assert IsFilling(s, Top(s).j);
    assert InUse(s, Top(s).j);
  }

  // What each step leaves in use and to be read.

  lemma WantedInUse(way: Way, s: State, j: nat, i: nat)
    requires Wanted(way, s, j, i)
    ensures InUse(s, j)
  {
    hide End;
    if Written(s, j, i) {
      var p :| 0 <= p < |s.fills| && s.fills[p].j == j && i < s.fills[p].n;
      assert IsFilling(s, j);
    }
  }

  /** Sending hands a slot from the send to its message. */
  lemma SendMoves(way: Way, s: State, j: nat)
    requires Copied(s)
    ensures var r := Next(way, s, Send);
            && (InQueue(r, j) ==> InQueue(s, j) || j == Top(s).j)
            && (IsFilling(r, j) ==> IsFilling(s, j))
            && (forall i: nat :: Written(r, j, i) ==> Written(s, j, i))
  {
    var r := Next(way, s, Send);
    if InQueue(r, j) {
      var q :| 0 <= q < |r.queue| && r.queue[q].j == j;
      assert q < |s.queue| ==> s.queue[q] == r.queue[q];
    }
    FewerFills(s, r, j);
  }

  lemma FewerFills(s: State, r: State, j: nat)
    requires |s.fills| > 0 && r.fills == s.fills[..|s.fills| - 1]
    ensures IsFilling(r, j) ==> IsFilling(s, j)
    ensures forall i: nat :: Written(r, j, i) ==> Written(s, j, i)
  {
    assert forall p :: 0 <= p < |r.fills| ==> r.fills[p] == s.fills[p];
  }

  lemma BeginMoves(way: Way, s: State, want: nat, j: nat)
    requires Next(way, s, Begin(want)) != s
    ensures InQueue(Next(way, s, Begin(want)), j) ==> InQueue(s, j)
    ensures InQueue(s, s.queue[0].j)
  {
    var r := Next(way, s, Begin(want));
    assert forall q :: 0 <= q < |r.queue| ==> r.queue[q] == s.queue[q + 1];
  }

  lemma SameQueue(s: State, r: State, j: nat)
    requires r.queue == s.queue
    ensures InQueue(r, j) <==> InQueue(s, j)
  {}

  lemma SameFills(s: State, r: State, j: nat)
    requires r.fills == s.fills
    ensures IsFilling(r, j) <==> IsFilling(s, j)
    ensures forall i: nat :: Written(r, j, i) <==> Written(s, j, i)
  {}

  /** The running send has moved on by `k` bytes. */
  lemma TopMoves(s: State, r: State, f: Fill, j: nat)
    requires |s.fills| > 0 && r.fills == WithTop(s, f) && f.j == Top(s).j && f.n >= Top(s).n
    ensures IsFilling(r, j) <==> IsFilling(s, j)
    ensures forall i: nat :: Written(r, j, i) ==> Written(s, j, i) || (j == f.j && Top(s).n <= i < f.n)
  {
    var z := |s.fills| - 1;
    assert forall p :: 0 <= p < z ==> r.fills[p] == s.fills[p];
    assert r.fills[z] == f && s.fills[z] == Top(s);
  }

  /** Nothing comes into use but by being taken. */
  lemma StillInUse(way: Way, s: State, t: Step, j: nat)
    requires !t.Take? && InUse(Next(way, s, t), j)
    ensures InUse(s, j) && Next(way, s, t).submitted == s.submitted
  {
    var r := Next(way, s, t);
    if r != s {
      match t
      case Send => SendMoves(way, s, j); assert IsFilling(s, Top(s).j);
      case Keep => FewerFills(s, r, j); SameQueue(s, r, j);
      case Begin(want) => BeginMoves(way, s, want, j); SameFills(s, r, j);
      case Store(reload) => TopMoves(s, r, Top(r), j); SameQueue(s, r, j);
      case Copy => TopMoves(s, r, Top(r), j); SameQueue(s, r, j);
      case _ => SameFills(s, r, j); SameQueue(s, r, j);
      hide InQueue, IsFilling;
    }
  }

  /** Nothing comes to be wanted but by being copied. */
  lemma StillWanted(way: Way, s: State, t: Step, j: nat, i: nat)
    requires !t.Take? && Shape(way, s) && Wanted(way, Next(way, s, t), j, i)
    ensures Wanted(way, s, j, i) || (t.Copy? && MayCopy(s) && j == Top(s).j && i == Top(s).n)
  {
    var r := Next(way, s, t);
    hide EntriesShape, OrderShape, End, Fits;
    if r != s {
      match t
      case Send => SendMoves(way, s, j); SentWritten(way, s, j, i);
      case Keep => FewerFills(s, r, j); SameQueue(s, r, j);
      case Begin(want) => BeginMoves(way, s, want, j); SameFills(s, r, j);
      case Store(reload) => TopMoves(s, r, Top(r), j); SameQueue(s, r, j);
      case Copy => TopMoves(s, r, Top(r), j); SameQueue(s, r, j);
      case _ => SameFills(s, r, j); SameQueue(s, r, j);
      hide InQueue, Written, LettersShape, FillsShape, Marked;
    }
  }

  lemma SentWritten(way: Way, s: State, j: nat, i: nat)
    requires Copied(s)
    ensures j == Top(s).j && i < |EntryOf(s).item.data| ==> Written(s, j, i)
  {
    if j == Top(s).j && i < |EntryOf(s).item.data| {
      assert s.fills[|s.fills| - 1].n > i;
    }
  }

  lemma TakenInUse(way: Way, s: State, it: Item, j: nat)
    requires Shape(way, s) && InUse(Next(way, s, Take(it)), j)
    ensures InUse(s, j) || j == |s.submitted|
  {
    var r := Next(way, s, Take(it));
    if r != s {
      SameQueue(s, r, j);
      assert forall p :: 0 <= p < |s.fills| ==> r.fills[p] == s.fills[p];
      assert IsFilling(r, j) ==> IsFilling(s, j) || j == |s.submitted|;
      hide InQueue, IsFilling, Shape;
    }
  }

  lemma TakenWanted(way: Way, s: State, it: Item, j: nat, i: nat)
    requires Shape(way, s) && Wanted(way, Next(way, s, Take(it)), j, i)
    ensures Wanted(way, s, j, i) && Next(way, s, Take(it)).submitted[j] == s.submitted[j]
  {
    var r := Next(way, s, Take(it));
    if r != s {
      SameQueue(s, r, j);
      assert forall p :: 0 <= p < |s.fills| ==> r.fills[p] == s.fills[p];
      assert Written(r, j, i) ==> Written(s, j, i);
      assert j < |s.submitted| by { NumbersOld(way, s, j, i); }
      hide InQueue, Written, Shape, End;
    }
  }

  lemma NumbersOld(way: Way, s: State, j: nat, i: nat)
    requires Shape(way, s)
    ensures InQueue(s, j) || (s.cons.Reading? && s.cons.letter.j == j) || Written(s, j, i) ==> j < |s.submitted|
  {
    hide EntriesShape, OrderShape;
  }

  // Each step keeps what was said about them.

  lemma MarkedElsewhere(mem: seq<Byte>, p: nat, a: nat)
    requires p + 4 <= |mem| && a < |mem| && (a < p || p + 4 <= a)
    ensures Marked(mem, p)[a] == mem[a]
  {}

  lemma MarkedThere(mem: seq<Byte>, p: nat, i: nat)
    requires p + 4 <= |mem| && i < 4
    ensures Marked(mem, p)[p + i] == MARKER[i]
  {}

  /** A marker at `p` and byte `i` of slot `q`. */
  lemma MarkedByte(mem: seq<Byte>, p: nat, q: nat, i: nat)
    requires |mem| == RINGS * SLOT && IsSlot(p) && IsSlot(q) && i < SLOT
    ensures Marked(mem, p)[q + i] == if p == q && i < 4 then MARKER[i] else mem[q + i]
  {
    hide Marked;
    if p == q && i < 4 {
      MarkedThere(mem, p, i);
    } else {
      if p != q {
        SlotsApart(p, q);
      }
      MarkedElsewhere(mem, p, q + i);
    }
  }

  lemma WantedInside(way: Way, s: State, j: nat, i: nat)
    requires Shape(way, s) && Wanted(way, s, j, i)
    ensures Header(way) <= i < SLOT && IsSlot(s.submitted[j].slot) && s.submitted[j].slot + SLOT <= |s.mem|
  {
    EntryFits(way, s, j);
    hide Shape, IsSlot, InQueue, Written;
  }

  /** The running send writes into a slot that nobody else wants. */
  lemma TopAlone(way: Way, s: State, j: nat, i: nat)
    requires Shape(way, s) && Intact(way, s) && Running(s) && Wanted(way, s, j, i) && j != Top(s).j
    ensures s.submitted[j].slot != EntryOf(s).slot
  {
    assert IsFilling(s, Top(s).j);
    WantedInUse(way, s, j, i);
    hide Shape, Wanted, Held, AllRight, Part;
    assert SameSlot(s, Top(s).j, j) <==> s.submitted[j].slot == EntryOf(s).slot;
  }

  /** A send under way is not announced yet. */
  lemma TopUnannounced(way: Way, s: State, i: nat)
    requires Shape(way, s) && Running(s) && Wanted(way, s, Top(s).j, i)
    ensures i < Top(s).n
  {
    var j := Top(s).j;
    hide EntriesShape, LettersShape, End;
    assert forall q :: 0 <= q < |s.queue| ==> s.queue[q].j != j;
    assert s.cons.Reading? ==> s.cons.letter.j != j;
    assert Written(s, j, i);
  }

  lemma CopyHeld(way: Way, s: State, j: nat, i: nat)
    requires Shape(way, s) && Intact(way, s) && MayCopy(s) && Wanted(way, Next(way, s, Copy), j, i)
    ensures Held(Next(way, s, Copy), j, i)
  {
    StillWanted(way, s, Copy, j, i);
    EntryFits(way, s, Top(s).j);
    if Wanted(way, s, j, i) {
      assert Held(s, j, i);
      WantedInside(way, s, j, i);
      if j == Top(s).j {
        TopUnannounced(way, s, i);
      } else {
        TopAlone(way, s, j, i);
        SlotsApart(s.submitted[j].slot, EntryOf(s).slot);
      }
    }
    hide Shape, Intact, Wanted, IsSlot, Fits, End;
  }

  /** The marker goes to the base of the slot just read. */
  lemma MarkHeld(way: Way, s: State, j: nat, i: nat)
    requires Shape(way, s) && Intact(way, s) && MayMark(way, s) && Wanted(way, Next(way, s, Mark), j, i)
    ensures Held(Next(way, s, Mark), j, i)
  {
    StillWanted(way, s, Mark, j, i);
    assert Held(s, j, i);
    WantedInside(way, s, j, i);
    var l := s.cons.letter;
    EntryFits(way, s, l.j);
    assert way.Tx? ==> s.submitted[l.j].slot != s.submitted[j].slot by { ReadApart(way, s, j, i); }
    assert l.msg.ptr - Header(way) == s.submitted[l.j].slot;
    MarkedByte(s.mem, s.submitted[l.j].slot, s.submitted[j].slot, i);
    hide Shape, Intact, Wanted, IsSlot, Fits, End, Marked;
  }

  /** What has been read is neither announced nor being sent any more. */
  lemma ReadApart(way: Way, s: State, j: nat, i: nat)
    requires Shape(way, s) && Intact(way, s) && s.cons.Marking? && Wanted(way, s, j, i)
    ensures j != s.cons.letter.j && s.cons.letter.j < |s.submitted|
    ensures way.Tx? ==> s.submitted[s.cons.letter.j].slot != s.submitted[j].slot
  {
    WantedInUse(way, s, j, i);
    Announced(way, s, j, i);
    hide EntriesShape, Wanted, Held, AllRight, Part, OrderShape, FillsShape;
    var l := s.cons.letter.j;
    assert InUse(s, l);
    assert SameSlot(s, l, j) <==> s.submitted[l].slot == s.submitted[j].slot;
  }

  lemma Announced(way: Way, s: State, j: nat, i: nat)
    requires Shape(way, s) && s.cons.Marking? && Wanted(way, s, j, i)
    ensures j != s.cons.letter.j
  {
    hide EntriesShape, LettersShape, End;
    var l := s.cons.letter.j;
    assert forall q :: 0 <= q < |s.queue| ==> s.queue[q].j != l;
    assert forall p :: 0 <= p < |s.fills| ==> s.fills[p].j != l;
  }

  lemma StampHeld(way: Way, s: State, k: nat, j: nat, i: nat)
    requires Shape(way, s) && Intact(way, s) && Harmless(way, s, k) && Wanted(way, Next(way, s, Stamp(k)), j, i)
    ensures Held(Next(way, s, Stamp(k)), j, i)
  {
    StillWanted(way, s, Stamp(k), j, i);
    assert Held(s, j, i);
    WantedInside(way, s, j, i);
    if k < RINGS {
      IndexSlot(k);
      MarkedByte(s.mem, SLOT * k, s.submitted[j].slot, i);
    }
    hide Shape, Intact, Wanted, IsSlot, Fits, End, Marked;
  }

  lemma StepHeld(way: Way, s: State, t: Step, j: nat, i: nat)
    requires Shape(way, s) && Intact(way, s) && StepOk(way, s, t) && Wanted(way, Next(way, s, t), j, i)
    ensures Held(Next(way, s, t), j, i)
  {
    hide Shape, Wanted, Harmless, Clash;
    if Next(way, s, t) == s {
      assert Held(s, j, i);
    } else if t.Copy? {
      CopyHeld(way, s, j, i);
    } else if t.Mark? {
      MarkHeld(way, s, j, i);
    } else if t.Stamp? {
      StampHeld(way, s, t.k, j, i);
    } else {
      OtherHeld(way, s, t, j, i);
    }
  }

  /** The other steps write nothing. */
  lemma OtherHeld(way: Way, s: State, t: Step, j: nat, i: nat)
    requires Shape(way, s) && Intact(way, s) && Wanted(way, Next(way, s, t), j, i)
    requires !t.Copy? && !t.Mark? && !t.Stamp?
    ensures Held(Next(way, s, t), j, i)
  {
    if t.Take? {
      TakenWanted(way, s, t.item, j, i);
    } else {
      StillWanted(way, s, t, j, i);
    }
    assert Held(s, j, i);
    hide Shape, Intact, Wanted, Fits;
  }

  lemma SeparateTx(s: State, t: Step, a: nat, b: nat)
    requires Shape(Tx, s) && Separate(Tx, s) && StepOk(Tx, s, t)
    requires InUse(Next(Tx, s, t), a) && InUse(Next(Tx, s, t), b) && SameSlot(Next(Tx, s, t), a, b)
    ensures a == b
  {
    if t.Take? {
      TakenInUse(Tx, s, t.item, a);
      TakenInUse(Tx, s, t.item, b);
      hide Shape, Fits;
      assert a < |s.submitted| && b < |s.submitted| ==> SameSlot(s, a, b);
    } else {
      StillInUse(Tx, s, t, a);
      StillInUse(Tx, s, t, b);
      hide Shape, Next;
      assert SameSlot(s, a, b);
    }
  }

  /** A frame begun in the slot of a wanted byte. */
  lemma RxTakenClash(s: State, it: Item, a: nat, j: nat, i: nat)
    requires Shape(Rx, s) && Next(Rx, s, Take(it)) != s
    requires IsFilling(Next(Rx, s, Take(it)), a) && Wanted(Rx, Next(Rx, s, Take(it)), j, i)
    requires SameSlot(Next(Rx, s, Take(it)), a, j)
    ensures Clash(Rx, s)
  {
    var r := Next(Rx, s, Take(it));
    TakenWanted(Rx, s, it, j, i);
    hide Shape, Fits, Wanted;
    assert r.fills == [Fill(|s.submitted|, 0, s.idx, false)] && a == |s.submitted|;
    assert r.submitted == s.submitted + [Entry(it, SLOT * s.idx)];
    hide Next;
    assert s.submitted[j].slot == SLOT * s.idx;
  }

  lemma SeparateRx(s: State, t: Step, a: nat, j: nat, i: nat)
    requires Shape(Rx, s) && Separate(Rx, s) && StepOk(Rx, s, t)
    requires IsFilling(Next(Rx, s, t), a) && Wanted(Rx, Next(Rx, s, t), j, i) && SameSlot(Next(Rx, s, t), a, j)
    ensures a == j
  {
    var r := Next(Rx, s, t);
    if t.Take? && r != s {
      hide Shape, Clash, Next;
      RxTakenClash(s, t.item, a, j, i);
    } else if r != s {
      StillWanted(Rx, s, t, j, i);
      RxFilling(s, t, a);
      assert MayCopy(s) && j == Top(s).j ==> a == j by { OneFill(s, a); }
      hide Shape, Wanted, IsFilling;
      assert SameSlot(s, a, j);
    }
  }

  lemma RxFilling(s: State, t: Step, a: nat)
    requires Shape(Rx, s) && IsFilling(Next(Rx, s, t), a)
    ensures if t.Take? then IsFilling(s, a) || a == |s.submitted| == |Next(Rx, s, t).submitted| - 1
            else IsFilling(s, a) && Next(Rx, s, t).submitted == s.submitted
  {
    hide EntriesShape, LettersShape, OrderShape, Fits, Marked;
    var r := Next(Rx, s, t);
    var p :| 0 <= p < |r.fills| && r.fills[p].j == a;
    assert p < |s.fills| ==> s.fills[p].j == a;
  }

  /** A read is not begun inside another. */
  lemma OneFill(s: State, a: nat)
    requires Shape(Rx, s) && |s.fills| > 0 && IsFilling(s, a)
    ensures a == Top(s).j
  {
    hide EntriesShape, LettersShape, OrderShape;
  }

  lemma SeparateKept(way: Way, s: State, t: Step)
    requires Shape(way, s) && Separate(way, s) && StepOk(way, s, t)
    ensures Separate(way, Next(way, s, t))
  {
    var r := Next(way, s, t);
    if way.Tx? {
      forall a: nat, b: nat | InUse(r, a) && InUse(r, b) && SameSlot(r, a, b)
        ensures a == b
      {
        SeparateTx(s, t, a, b);
      }
    } else {
      forall a: nat, j: nat, i: nat | IsFilling(r, a) && Wanted(way, r, j, i) && SameSlot(r, a, j)
        ensures a == j
      {
        SeparateRx(s, t, a, j, i);
      }
    }
  }

  lemma PartGrows(way: Way, it: Item, got: seq<Byte>, b: Byte)
    requires Part(way, it, got) && Header(way) + |got| < |it.data| && b == it.data[Header(way) + |got|]
    ensures Part(way, it, got + [b])
  {}

  lemma FetchPart(way: Way, s: State)
    requires Shape(way, s) && Intact(way, s) && MayFetch(s)
    ensures var c := Next(way, s, Fetch).cons;
            c.letter.j < |s.submitted| && Part(way, s.submitted[c.letter.j].item, c.got)
  {
    var j, k := s.cons.letter.j, Header(way) + |s.cons.got|;
    EntryFits(way, s, j);
    hide EntriesShape, FillsShape, OrderShape, Fits, IsSlot, Part, AllRight, Separate;
    assert Wanted(way, s, j, k);
    PartGrows(way, s.submitted[j].item, s.cons.got, s.submitted[j].item.data[k]);
  }

  lemma NothingRead(way: Way, it: Item)
    requires Fits(way, it)
    ensures Part(way, it, [])
  {}

  lemma PartKept(way: Way, s: State, t: Step)
    requires Shape(way, s) && Intact(way, s)
    ensures var r := Next(way, s, t);
            r.cons.Reading? && r.cons.letter.j < |r.submitted| ==>
              Part(way, r.submitted[r.cons.letter.j].item, r.cons.got)
  {
    assert !s.cons.Waiting? ==> s.cons.letter.j < |s.submitted|;
    var r := Next(way, s, t);
    if r != s {
      match t
      case Fetch => FetchPart(way, s);
      case Begin(want) =>
        assert LetterOk(way, s.submitted, s.queue[0]);
        EntryFits(way, s, s.queue[0].j);
        NothingRead(way, s.submitted[s.queue[0].j].item);
      case _ =>
      hide Shape, Wanted, Held, Separate, AllRight, Part, Marked, Fits;
    }
  }

  lemma FinishRight(way: Way, s: State)
    requires Shape(way, s) && Intact(way, s) && s.cons.Reading? && |s.cons.got| == s.cons.want
    ensures Right(way, s.submitted, Delivery(s.cons.letter.j, s.cons.got))
  {
    hide EntriesShape, FillsShape, OrderShape, Part, MayTake, Wanted, Separate;
  }

  lemma MoreSubmitted(way: Way, es: seq<Entry>, e: Entry, d: Delivery)
    requires Right(way, es, d)
    ensures Right(way, es + [e], d)
  {}

  lemma AllRightKept(way: Way, s: State, t: Step)
    requires Shape(way, s) && Intact(way, s)
    ensures AllRight(way, Next(way, s, t))
  {
    var r := Next(way, s, t);
    if r != s {
      if t.Finish? {
        FinishRight(way, s);
        hide Shape, Wanted, Held, Separate, Right;
      } else if t.Take? {
        forall i | 0 <= i < |r.delivered|
          ensures Right(way, r.submitted, r.delivered[i])
        {
          MoreSubmitted(way, s.submitted, Entry(t.item, SLOT * s.idx), s.delivered[i]);
        }
      } else {
        hide Shape, Wanted, Held, Separate, Right, Marked;
        assert r.delivered == s.delivered && r.submitted == s.submitted;
      }
    }
  }

  /** A careful step keeps everything that is still to be read. */
  lemma IntactKept(way: Way, s: State, t: Step)
    requires Shape(way, s) && Intact(way, s) && StepOk(way, s, t)
    ensures Intact(way, Next(way, s, t))
  {
    var r := Next(way, s, t);
    forall j: nat, i: nat | Wanted(way, r, j, i)
      ensures Held(r, j, i)
    {
      StepHeld(way, s, t, j, i);
    }
    SeparateKept(way, s, t);
    PartKept(way, s, t);
    AllRightKept(way, s, t);
    hide Next, Shape, Wanted, Held, Separate, AllRight, Part, StepOk;
  }

  lemma {:induction false} RunIntact(way: Way, s: State, steps: seq<Step>)
    requires Shape(way, s) && Intact(way, s) && Careful(way, s, steps)
    ensures Shape(way, Run(way, s, steps)) && Intact(way, Run(way, s, steps))
  {
    hide Shape, Intact, StepOk, Next;
    if |steps| > 0 {
      var before := steps[..|steps| - 1];
      RunIntact(way, s, before);
      ShapeKept(way, Run(way, s, before), steps[|steps| - 1]);
      IntactKept(way, Run(way, s, before), steps[|steps| - 1]);
    }
  }

  lemma BootIntact(way: Way, s: State)
    requires Boot(s)
    ensures Shape(way, s) && Intact(way, s)
  {
    BootShape(way, s);
  }

  /** Over every careful interleaving, nested sends included, each delivery is what
      was submitted under its number, never touched by another send, a marker or
      a stamp. */
  lemma DeliveredAsSubmitted(way: Way, s: State, steps: seq<Step>)
    requires Boot(s) && Careful(way, s, steps)
    ensures AllRight(way, Run(way, s, steps))
  {
    hide Shape, Careful, Run;
    BootIntact(way, s);
    RunIntact(way, s, steps);
  }

  /** In every careful interleaving the k-th frame transmitted is the k-th packet
      announced: whole, as long as it fits behind the header of the mailbox
      buffer, and otherwise cut there. */
  lemma TransmittedWhole(s: State, steps: seq<Step>, k: nat)
    requires Boot(s) && Careful(Tx, s, steps) && k < |Run(Tx, s, steps).delivered|
    ensures var r := Run(Tx, s, steps);
            && k < |r.sent| && r.sent[k] < |r.submitted|
            && var data := r.submitted[r.sent[k]].item.data;
               && r.delivered[k].bytes == data[..Min(|data|, CLAMP)]
               && (|data| <= CLAMP ==> r.delivered[k].bytes == data)
  {
    DeliveredAsSubmitted(Tx, s, steps);
    BootShape(Tx, s);
    RunShape(Tx, s, steps);
    var r := Run(Tx, s, steps);
    hide Run, Careful;
    assert r.delivered[k].j == r.sent[k] by { hide EntriesShape, FillsShape, LettersShape; }
    assert Right(Tx, r.submitted, r.delivered[k]);
    EntryFits(Tx, r, r.sent[k]);
    hide Shape, AllRight;
  }
}
