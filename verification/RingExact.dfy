/** The converse of RingSafety: where a step that is not careful is possible, some
    continuation delivers a wrong packet. Together they say exactly when handing
    out a slot, and stamping one, is safe. */
module RingExact {
  import opened Words
  import opened RingHandoff
  import opened RingSafety

  /** Whatever careful steps follow, every delivery is right. */
  ghost predicate Survives(way: Way, s: State) {
    forall steps :: Careful(way, s, steps) ==> AllRight(way, Run(way, s, steps))
  }

  lemma IntactSurvives(way: Way, s: State)
    requires Shape(way, s) && Intact(way, s)
    ensures Survives(way, s)
  {
    hide Shape, Careful, Run;
    forall steps | Careful(way, s, steps)
      ensures AllRight(way, Run(way, s, steps))
    {
      RunIntact(way, s, steps);
    }
  }

  /** Steps that are always careful. */
  predicate Handling(steps: seq<Step>) {
    forall k :: 0 <= k < |steps| ==> !steps[k].Take? && !steps[k].Stamp?
  }

  lemma {:induction false} HandlingCareful(way: Way, s: State, steps: seq<Step>)
    requires Handling(steps)
    ensures Careful(way, s, steps)
    decreases |steps|
  {
    hide Clash, Harmless, Run;
    if |steps| > 0 {
      HandlingCareful(way, s, steps[..|steps| - 1]);
    }
  }

  lemma WrongEnds(way: Way, s: State, steps: seq<Step>)
    requires Handling(steps) && !AllRight(way, Run(way, s, steps))
    ensures !Survives(way, s)
  {
    HandlingCareful(way, s, steps);
    hide Run, Careful, AllRight;
  }

  lemma {:induction false} RunAppend(way: Way, s: State, a: seq<Step>, b: seq<Step>)
    ensures Run(way, s, a + b) == Run(way, Run(way, s, a), b)
    decreases |b|
  {
    hide Next;
    if |b| == 0 {
      assert a + b == a;
    } else {
      RunAppend(way, s, a, b[..|b| - 1]);
      assert (a + b)[..|a + b| - 1] == a + b[..|b| - 1];
    }
  }

  lemma RunOne(way: Way, s: State, t: Step)
    ensures Run(way, s, [t]) == Next(way, s, t)
  {
    hide Next;
    assert [t][..0] == [];
    assert Run(way, s, [t][..0]) == s;
  }

  /** A first step, then the others. */
  lemma RunCons(way: Way, s: State, t: Step, rest: seq<Step>)
    ensures Run(way, s, [t] + rest) == Run(way, Next(way, s, t), rest)
  {
    hide Next, Run;
    RunAppend(way, s, [t], rest);
    RunOne(way, s, t);
  }

  // A wrong byte that will be delivered.

  /** The reader of `j` has already taken a wrong byte for byte `i`. */
  predicate Misread(way: Way, s: State, j: nat, i: nat) {
    && s.cons.Reading? && s.cons.letter.j == j && Header(way) <= i < Header(way) + |s.cons.got|
    && j < |s.submitted| && i < |s.submitted[j].item.data|
    && s.cons.got[i - Header(way)] != s.submitted[j].item.data[i]
  }

  /** No marker still to come falls on byte `i` of submission `j`. */
  predicate Unmarked(way: Way, s: State, j: nat, i: nat) {
    way.Tx? && i < 4 ==>
      forall q :: 0 <= q < |Unfinished(s)| && Unfinished(s)[q].j != j ==> !SameSlot(s, Unfinished(s)[q].j, j)
  }

  /** No send that has interrupted the one of `j` will write byte `i`, or have it
      marked. */
  predicate Uncovered(way: Way, s: State, j: nat, i: nat) {
    forall p :: 0 <= p < |s.fills| && s.fills[p].j > j && SameSlot(s, s.fills[p].j, j) ==>
      i < s.fills[p].n && !(way.Tx? && i < 4)
  }

  predicate Doomed(way: Way, s: State, j: nat, i: nat) {
    || Misread(way, s, j, i)
    || (&& Wanted(way, s, j, i) && !Held(s, j, i) && Unmarked(way, s, j, i)
        && (IsFilling(s, j) ==> Uncovered(way, s, j, i)))
  }

  predicate ReadsNow(s: State, j: nat) { s.cons.Reading? && s.cons.letter.j == j }

  /** The step that brings the wrong byte closer to its delivery. */
  function Move(s: State, j: nat): (t: Step)
    ensures !t.Take? && !t.Stamp?
  {
    if IsFilling(s, j) && Running(s) then
      if !Top(s).stored then Store(false)
      else if Top(s).n < |EntryOf(s).item.data| then Copy else Send
    else match s.cons
      case Reading(_, want, got) => if |got| < want then Fetch else Finish
      case Marking(_) => Mark
      case Waiting => Begin(if |s.queue| == 0 then 0 else Min(s.queue[0].msg.len, CLAMP))
  }

  /** What the running send has still to do. */
  function Left(s: State): (n: nat) {
    if !Running(s) || Top(s).n > |EntryOf(s).item.data| then 0
    else |EntryOf(s).item.data| - Top(s).n + if Top(s).stored then 0 else 1
  }

  function Phase(s: State): (n: nat) {
    match s.cons
    case Reading(_, want, got) => if |got| <= want then 2 + want - |got| else 2
    case Marking(_) => 1
    case Waiting => 0
  }

  lemma TopRuns(way: Way, s: State)
    requires Shape(way, s) && |s.fills| > 0
    ensures Running(s) && FillOk(s, Top(s)) && EntryOf(s).slot + SLOT <= |s.mem| && |EntryOf(s).item.data| <= SLOT
  {
    hide EntriesShape, LettersShape, OrderShape;
    EntryFits(way, s, Top(s).j);
  }

  /** A send below the running one is an earlier one. */
  lemma Below(way: Way, s: State, j: nat)
    requires Shape(way, s) && |s.fills| > 0 && IsFilling(s, j) && j != Top(s).j
    ensures j < Top(s).j
  {
    hide EntriesShape, LettersShape, OrderShape;
  }

  /** While the send of `j` is under way, its bytes are wanted as written. */
  lemma FillingWanted(way: Way, s: State, j: nat, i: nat)
    requires Shape(way, s) && IsFilling(s, j) && Doomed(way, s, j, i)
    ensures Written(s, j, i) && Wanted(way, s, j, i) && !Held(s, j, i) && !InQueue(s, j)
    ensures Unmarked(way, s, j, i) && Uncovered(way, s, j, i) && |s.fills| > 0
  {
    hide EntriesShape, LettersShape, FillsShape, End, Unmarked, Uncovered;
    var p :| 0 <= p < |s.fills| && s.fills[p].j == j;
    assert forall q :: 0 <= q < |s.queue| ==> s.queue[q].j != j;
    assert s.cons.Reading? ==> s.cons.letter.j != j;
  }

  /** The running send goes on; what is written stays written. */
  lemma TopGoesOn(s: State, r: State, f: Fill, j: nat, i: nat)
    requires |s.fills| > 0 && r.fills == WithTop(s, f) && f.j == Top(s).j && f.n >= Top(s).n && Written(s, j, i)
    ensures Written(r, j, i) && IsFilling(r, j)
  {
    var p :| 0 <= p < |s.fills| && s.fills[p].j == j && i < s.fills[p].n;
    assert r.fills[p].j == j && i < r.fills[p].n;
  }

  lemma TopUncovered(way: Way, s: State, r: State, f: Fill, j: nat, i: nat)
    requires |s.fills| > 0 && r.fills == WithTop(s, f) && f.j == Top(s).j && f.n >= Top(s).n
    requires r.submitted == s.submitted && Uncovered(way, s, j, i)
    ensures Uncovered(way, r, j, i)
  {
    forall p | 0 <= p < |r.fills| && r.fills[p].j > j && SameSlot(r, r.fills[p].j, j)
      ensures i < r.fills[p].n && !(way.Tx? && i < 4)
    {
      assert r.fills[p].j == s.fills[p].j && r.fills[p].n >= s.fills[p].n;
      assert SameSlot(s, s.fills[p].j, j);
    }
  }

  lemma SameUnmarked(way: Way, s: State, r: State, j: nat, i: nat)
    requires Unmarked(way, s, j, i) && Unfinished(r) == Unfinished(s)
    requires |r.submitted| >= |s.submitted| && j < |s.submitted|
    requires forall q :: 0 <= q < |Unfinished(s)| ==> Unfinished(s)[q].j < |s.submitted|
    requires forall k :: 0 <= k < |s.submitted| ==> r.submitted[k].slot == s.submitted[k].slot
    ensures Unmarked(way, r, j, i)
  {}

  lemma LettersOld(way: Way, s: State, q: nat)
    requires Shape(way, s) && q < |Unfinished(s)|
    ensures LetterOk(way, s.submitted, Unfinished(s)[q]) && InUse(s, Unfinished(s)[q].j)
  {
    hide EntriesShape, OrderShape, FillsShape;
    var c := |Unfinished(s)| - |s.queue|;
    if q >= c {
      assert s.queue[q - c] == Unfinished(s)[q];
      assert InQueue(s, s.queue[q - c].j);
    }
  }

  lemma DoomProduce(way: Way, s: State, j: nat, i: nat)
    requires Shape(way, s) && Doomed(way, s, j, i) && IsFilling(s, j) && !Move(s, j).Send?
    ensures var r := Next(way, s, Move(s, j));
            Doomed(way, r, j, i) && IsFilling(r, j) && |r.fills| == |s.fills| && Left(r) < Left(s)
  {
    FillingWanted(way, s, j, i);
    TopRuns(way, s);
    var r := Next(way, s, Move(s, j));
    assert WroteElsewhere(way, s, r, j, i) by { ProducedElsewhere(way, s, j, i); }
    forall q | 0 <= q < |Unfinished(s)| ensures Unfinished(s)[q].j < |s.submitted| { LettersOld(way, s, q); }
    hide Shape, Unmarked, Uncovered, InQueue, Fits, End, Doomed;
    var f := Top(r);
    TopGoesOn(s, r, f, j, i);
    TopUncovered(way, s, r, f, j, i);
    assert Unfinished(r) == Unfinished(s);
    SameUnmarked(way, s, r, j, i);
    DoomedAgain(way, r, j, i);
  }

  lemma DoomedAgain(way: Way, r: State, j: nat, i: nat)
    requires j < |r.submitted| && i < |r.submitted[j].item.data|
    requires Header(way) <= i < End(way, r.submitted[j].item) && Written(r, j, i)
    requires !Held(r, j, i) && Unmarked(way, r, j, i) && Uncovered(way, r, j, i)
    ensures Doomed(way, r, j, i)
  {
    hide Unmarked, Uncovered, Held;
  }

  /** The wrong byte is still there. */
  predicate WroteElsewhere(way: Way, s: State, r: State, j: nat, i: nat) {
    && r == s.(mem := r.mem, idx := r.idx, fills := r.fills) && |r.mem| == |s.mem| && !Held(r, j, i)
    && |s.fills| > 0 && |r.fills| == |s.fills| && r.fills == WithTop(s, Top(r))
    && Top(r).j == Top(s).j && Top(r).n >= Top(s).n && Left(r) < Left(s)
  }

  lemma ProducedElsewhere(way: Way, s: State, j: nat, i: nat)
    requires Shape(way, s) && Doomed(way, s, j, i) && IsFilling(s, j) && !Move(s, j).Send?
    ensures WroteElsewhere(way, s, Next(way, s, Move(s, j)), j, i)
  {
    FillingWanted(way, s, j, i);
    TopRuns(way, s);
    WantedInside(way, s, j, i);
    var e := EntryOf(s);
    if j == Top(s).j {
      TopUnannounced(way, s, i);
    } else {
      Below(way, s, j);
      if s.submitted[j].slot != e.slot {
        EntryFits(way, s, Top(s).j);
        SlotsApart(s.submitted[j].slot, e.slot);
      } else {
        assert SameSlot(s, Top(s).j, j);
      }
    }
    hide Shape, Unmarked, Doomed, Wanted, Written, Fits, End, IsSlot;
  }

  lemma StillUncovered(way: Way, s: State, r: State, j: nat, i: nat)
    requires |s.fills| > 0 && r.fills == s.fills[..|s.fills| - 1] && r.submitted == s.submitted
    requires Uncovered(way, s, j, i)
    ensures Uncovered(way, r, j, i)
  {
    assert forall p :: 0 <= p < |r.fills| ==> r.fills[p] == s.fills[p];
  }

  lemma DoomSend(way: Way, s: State, j: nat, i: nat)
    requires Shape(way, s) && Doomed(way, s, j, i) && IsFilling(s, j) && Move(s, j).Send?
    ensures var r := Next(way, s, Send);
            Doomed(way, r, j, i) && |r.fills| < |s.fills|
  {
    FillingWanted(way, s, j, i);
    TopRuns(way, s);
    var r := Next(way, s, Send);
    var t := Top(s).j;
    assert Copied(s);
    SentUnmarked(way, s, j, i);
    assert r.queue[|s.queue|].j == t;
    if j == t {
      assert InQueue(r, j);
      assert !IsFilling(r, j) by { PoppedAway(way, s, r); }
    } else {
      PoppedBelow(s, r, j, i);
      StillUncovered(way, s, r, j, i);
    }
    hide Shape, Unmarked, Uncovered, Fits, IsFilling, Next, End;
  }

  lemma SentUnmarked(way: Way, s: State, j: nat, i: nat)
    requires Shape(way, s) && Copied(s) && j < |s.submitted|
    requires Unmarked(way, s, j, i) && Uncovered(way, s, j, i) && (j == Top(s).j || j < Top(s).j)
    ensures Unmarked(way, Next(way, s, Send), j, i)
  {
    var r := Next(way, s, Send);
    var m := |Unfinished(s)|;
    assert forall q :: 0 <= q < m ==> Unfinished(r)[q] == Unfinished(s)[q];
    assert Unfinished(r)[m].j == Top(s).j && |Unfinished(r)| == m + 1;
    hide Shape, Next;
    assert way.Tx? && i < 4 && j != Top(s).j ==> !SameSlot(s, Top(s).j, j);
  }

  lemma PoppedAway(way: Way, s: State, r: State)
    requires Shape(way, s) && |s.fills| > 0 && r.fills == s.fills[..|s.fills| - 1]
    ensures !IsFilling(r, Top(s).j)
  {
    hide EntriesShape, LettersShape, OrderShape;
    assert forall p :: 0 <= p < |r.fills| ==> r.fills[p] == s.fills[p];
  }

  lemma PoppedBelow(s: State, r: State, j: nat, i: nat)
    requires |s.fills| > 0 && r.fills == s.fills[..|s.fills| - 1] && j != Top(s).j
    ensures IsFilling(s, j) ==> IsFilling(r, j)
    ensures Written(s, j, i) ==> Written(r, j, i)
  {
    assert forall p :: 0 <= p < |r.fills| ==> r.fills[p] == s.fills[p];
    if IsFilling(s, j) {
      var p :| 0 <= p < |s.fills| && s.fills[p].j == j;
      assert r.fills[p].j == j;
    }
    if Written(s, j, i) {
      var p :| 0 <= p < |s.fills| && s.fills[p].j == j && i < s.fills[p].n;
      assert r.fills[p].j == j;
    }
  }

  // Once announced, only the reader moves.

  lemma DoomBegin(way: Way, s: State, j: nat, i: nat)
    requires Shape(way, s) && Doomed(way, s, j, i) && !IsFilling(s, j) && Move(s, j).Begin?
    ensures var r := Next(way, s, Move(s, j));
            Doomed(way, r, j, i) && !IsFilling(r, j) && |r.queue| < |s.queue|
  {
    AnnouncedInQueue(way, s, j, i);
    LettersOld(way, s, 0);
    hide Shape, Fits, Doomed, InQueue, Wanted, Held, Unmarked;
    var want := Min(s.queue[0].msg.len, CLAMP);
    assert Next(way, s, Begin(want)) == s.(queue := s.queue[1..], cons := Reading(s.queue[0], want, []));
    hide Next;
    AfterBegin(way, s, want, j, i);
  }

  /** What is wanted and neither being sent nor being read is in the queue. */
  lemma AnnouncedInQueue(way: Way, s: State, j: nat, i: nat)
    requires Doomed(way, s, j, i) && !IsFilling(s, j) && (s.cons.Reading? ==> s.cons.letter.j != j)
    ensures InQueue(s, j) && |s.queue| > 0
    ensures Wanted(way, s, j, i) && !Held(s, j, i) && Unmarked(way, s, j, i)
  {
    hide End, Unmarked, Uncovered, Held;
  }

  lemma AfterBegin(way: Way, s: State, want: nat, j: nat, i: nat)
    requires Wanted(way, s, j, i) && !Held(s, j, i) && Unmarked(way, s, j, i) && !IsFilling(s, j)
    requires InQueue(s, j) && s.cons.Waiting? && |s.queue| > 0
    requires LetterOk(way, s.submitted, s.queue[0]) && want == Min(s.queue[0].msg.len, CLAMP)
    ensures var r := s.(queue := s.queue[1..], cons := Reading(s.queue[0], want, []));
            Doomed(way, r, j, i) && !IsFilling(r, j)
  {
    var r := s.(queue := s.queue[1..], cons := Reading(s.queue[0], want, []));
    assert Unfinished(r) == Unfinished(s);
    assert Unmarked(way, r, j, i);
    hide Unmarked;
    var q :| 0 <= q < |s.queue| && s.queue[q].j == j;
    assert q > 0 ==> r.queue[q - 1].j == j;
  }

  lemma DoomFetch(way: Way, s: State, j: nat, i: nat)
    requires Shape(way, s) && Doomed(way, s, j, i) && !IsFilling(s, j) && Move(s, j).Fetch?
    ensures var r := Next(way, s, Fetch);
            Doomed(way, r, j, i) && !IsFilling(r, j) && r.queue == s.queue && Phase(r) < Phase(s)
  {
    var r := Next(way, s, Fetch);
    var l := s.cons.letter;
    EntryFits(way, s, l.j);
    assert LetterOk(way, s.submitted, l) && MayTake(way, l.msg.len, s.cons.want);
    hide Shape, Fits, IsSlot, IsFilling;
    assert MayFetch(s);
    assert r == s.(cons := s.cons.(got := s.cons.got + [s.mem[l.msg.ptr + |s.cons.got|]]));
    hide Next;
    FetchedDoom(way, s, r, j, i);
    assert !IsFilling(r, j) by { SameFills(s, r, j); }
  }

  lemma FetchedDoom(way: Way, s: State, r: State, j: nat, i: nat)
    requires Doomed(way, s, j, i) && MayFetch(s) && LetterOk(way, s.submitted, s.cons.letter)
    requires r == s.(cons := s.cons.(got := s.cons.got + [s.mem[s.cons.letter.msg.ptr + |s.cons.got|]]))
    ensures Doomed(way, r, j, i)
  {
    SameQueue(s, r, j);
    SameFills(s, r, j);
    hide InQueue, IsFilling, Written, End;
    if Misread(way, s, j, i) || (s.cons.letter.j == j && i == Header(way) + |s.cons.got| && !Held(s, j, i)) {
      assert Misread(way, r, j, i);
    } else {
      assert Unfinished(r) == Unfinished(s) && Unmarked(way, r, j, i);
      assert Held(r, j, i) == Held(s, j, i);
      assert Wanted(way, r, j, i);
      assert Uncovered(way, s, j, i) ==> Uncovered(way, r, j, i);
    }
  }

  lemma DoomFinish(way: Way, s: State, j: nat, i: nat)
    requires Shape(way, s) && Doomed(way, s, j, i) && !IsFilling(s, j) && Move(s, j).Finish? && !ReadsNow(s, j)
    ensures var r := Next(way, s, Finish);
            Doomed(way, r, j, i) && !IsFilling(r, j) && r.queue == s.queue && Phase(r) < Phase(s)
  {
    AnnouncedInQueue(way, s, j, i);
    var r := Next(way, s, Finish);
    SameQueue(s, r, j);
    SameFills(s, r, j);
    assert s.cons.Reading? && |s.cons.got| == s.cons.want by { hide EntriesShape, OrderShape, FillsShape; }
    hide Shape, Fits, InQueue, IsFilling, End;
    assert Unfinished(r) == Unfinished(s) && Unmarked(way, r, j, i);
  }

  lemma DoomMark(way: Way, s: State, j: nat, i: nat)
    requires Shape(way, s) && Doomed(way, s, j, i) && !IsFilling(s, j) && Move(s, j).Mark?
    ensures var r := Next(way, s, Mark);
            Doomed(way, r, j, i) && !IsFilling(r, j) && r.queue == s.queue && Phase(r) < Phase(s)
  {
    AnnouncedInQueue(way, s, j, i);
    Announced(way, s, j, i);
    WantedInside(way, s, j, i);
    var l := s.cons.letter;
    LettersOld(way, s, 0);
    EntryFits(way, s, l.j);
    assert |s.mem| == RINGS * SLOT && s.submitted[l.j].slot == l.msg.ptr - Header(way);
    MarkedByte(s.mem, s.submitted[l.j].slot, s.submitted[j].slot, i);
    assert way.Tx? && i < 4 ==> !SameSlot(s, l.j, j);
    hide Shape, Fits, Doomed, InQueue, Wanted, IsSlot, Marked, Unmarked, IsFilling;
    var m := Marked(s.mem, l.msg.ptr - Header(way));
    assert Next(way, s, Mark) == s.(mem := m, cons := Waiting);
    hide Next;
    AfterMark(way, s, m, j, i);
  }

  lemma AfterMark(way: Way, s: State, m: seq<Byte>, j: nat, i: nat)
    requires Wanted(way, s, j, i) && !Held(s, j, i) && Unmarked(way, s, j, i) && !IsFilling(s, j)
    requires InQueue(s, j) && s.cons.Marking?
    requires s.submitted[j].slot + i < |s.mem| == |m| && m[s.submitted[j].slot + i] == s.mem[s.submitted[j].slot + i]
    ensures var r := s.(mem := m, cons := Waiting); Doomed(way, r, j, i) && !IsFilling(r, j)
  {
    var r := s.(mem := m, cons := Waiting);
    SameQueue(s, r, j);
    SameFills(s, r, j);
    FewerAhead(way, s, r, j, i);
    hide InQueue, IsFilling, End, Unmarked, Written;
    assert Wanted(way, r, j, i) && !Held(r, j, i);
  }

  lemma FewerAhead(way: Way, s: State, r: State, j: nat, i: nat)
    requires Unmarked(way, s, j, i) && r.submitted == s.submitted && r.queue == s.queue
    requires !s.cons.Waiting? && r.cons.Waiting?
    ensures Unmarked(way, r, j, i)
  {
    assert forall q :: 0 <= q < |r.queue| ==> Unfinished(r)[q] == s.queue[q] == Unfinished(s)[q + 1];
  }

  lemma DoomEnd(way: Way, s: State, j: nat, i: nat)
    requires Shape(way, s) && Doomed(way, s, j, i) && !IsFilling(s, j) && Move(s, j).Finish? && ReadsNow(s, j)
    ensures !AllRight(way, Next(way, s, Finish))
  {
    var r := Next(way, s, Finish);
    NotAhead(way, s);
    assert |s.cons.got| == s.cons.want by { hide EntriesShape, OrderShape, FillsShape; }
    hide Shape, InQueue, End;
    assert !Written(s, j, i) by { assert forall p :: 0 <= p < |s.fills| ==> s.fills[p].j != j; }
    assert Misread(way, s, j, i);
    assert r.delivered[|s.delivered|] == Delivery(j, s.cons.got);
    assert !Part(way, s.submitted[j].item, s.cons.got);
  }

  /** What is being read is no longer in the queue. */
  lemma NotAhead(way: Way, s: State)
    requires Shape(way, s) && s.cons.Reading?
    ensures !InQueue(s, s.cons.letter.j)
  {
    hide EntriesShape, LettersShape, FillsShape;
  }

  /** Termination of what follows. */
  function Sends(s: State, j: nat): (n: nat) { if IsFilling(s, j) then |s.fills| else 0 }

  function ToCopy(s: State, j: nat): (n: nat) { if IsFilling(s, j) then Left(s) else 0 }

  predicate Closer(s: State, r: State, j: nat) {
    || Sends(r, j) < Sends(s, j)
    || (Sends(r, j) == Sends(s, j) && ToCopy(r, j) < ToCopy(s, j))
    || (Sends(r, j) == Sends(s, j) && ToCopy(r, j) == ToCopy(s, j) &&
        (|r.queue| < |s.queue| || (r.queue == s.queue && Phase(r) < Phase(s))))
  }

  lemma DoomStep(way: Way, s: State, j: nat, i: nat)
    requires Shape(way, s) && Doomed(way, s, j, i)
    requires !(Move(s, j).Finish? && ReadsNow(s, j))
    ensures var r := Next(way, s, Move(s, j)); Shape(way, r) && Doomed(way, r, j, i) && Closer(s, r, j)
  {
    ShapeKept(way, s, Move(s, j));
    if IsFilling(s, j) {
      FillingWanted(way, s, j, i);
      TopRuns(way, s);
      hide Shape, Doomed, Next, IsFilling, Left, Phase;
      if Move(s, j).Send? {
        DoomSend(way, s, j, i);
      } else {
        DoomProduce(way, s, j, i);
      }
    } else {
      hide Shape, Doomed, Next, IsFilling, Left, Phase;
      match Move(s, j)
      case Begin(want) => DoomBegin(way, s, j, i);
      case Fetch => DoomFetch(way, s, j, i);
      case Finish => DoomFinish(way, s, j, i);
      case Mark => DoomMark(way, s, j, i);
    }
  }

  /** A wrong byte that somebody still wants is delivered in the end. */
  lemma {:induction false} DoomEnds(way: Way, s: State, j: nat, i: nat) returns (steps: seq<Step>)
    requires Shape(way, s) && Doomed(way, s, j, i)
    ensures Handling(steps) && !AllRight(way, Run(way, s, steps))
    decreases Sends(s, j), ToCopy(s, j), |s.queue|, Phase(s)
  {
    hide Shape, Doomed, Next, AllRight, Left, Phase, IsFilling, Run, Move;
    var t := Move(s, j);
    if t.Finish? && ReadsNow(s, j) {
      StillReading(way, s, j, i);
      DoomEnd(way, s, j, i);
      RunOne(way, s, t);
      steps := [t];
    } else {
      DoomStep(way, s, j, i);
      var rest := DoomEnds(way, Next(way, s, t), j, i);
      steps := [t] + rest;
      RunCons(way, s, t, rest);
    }
  }

  lemma StillReading(way: Way, s: State, j: nat, i: nat)
    requires Shape(way, s) && Doomed(way, s, j, i) && Move(s, j).Finish?
    ensures !IsFilling(s, j)
  {
    if IsFilling(s, j) {
      FillingWanted(way, s, j, i);
      TopRuns(way, s);
    }
  }

  lemma DoomedFails(way: Way, s: State, j: nat, i: nat)
    requires Shape(way, s) && Doomed(way, s, j, i)
    ensures !Survives(way, s)
  {
    hide Shape, Doomed, Run, Survives;
    var steps := DoomEnds(way, s, j, i);
    WrongEnds(way, s, steps);
  }

  /** A continuation of steps that are always careful. */
  lemma ThenFails(way: Way, s: State, steps: seq<Step>, j: nat, i: nat)
    requires Handling(steps) && Shape(way, Run(way, s, steps)) && Doomed(way, Run(way, s, steps), j, i)
    ensures !Survives(way, s)
  {
    hide Shape, Doomed, Run, AllRight, Survives;
    var more := DoomEnds(way, Run(way, s, steps), j, i);
    RunAppend(way, s, steps, more);
    WrongEnds(way, s, steps + more);
  }

  // Stamps.

  lemma FillInUse(s: State, p: nat)
    requires Shape(Tx, s) && p < |s.fills|
    ensures InUse(s, s.fills[p].j)
  {
    hide EntriesShape, LettersShape, OrderShape;
    assert FillOk(s, s.fills[p]) && IsFilling(s, s.fills[p].j);
  }

  /** Where nothing is damaged, slots in use are apart. */
  lemma AloneUnmarked(s: State, j: nat, i: nat)
    requires Shape(Tx, s) && Intact(Tx, s) && InUse(s, j)
    ensures Unmarked(Tx, s, j, i) && Uncovered(Tx, s, j, i)
  {
    forall q | 0 <= q < |Unfinished(s)| && Unfinished(s)[q].j != j
      ensures !SameSlot(s, Unfinished(s)[q].j, j)
    {
      LettersOld(Tx, s, q);
    }
    forall p | 0 <= p < |s.fills| && s.fills[p].j > j
      ensures !SameSlot(s, s.fills[p].j, j)
    {
      FillInUse(s, p);
    }
  }

  lemma StampDooms(s: State, m: seq<Byte>, j: nat, i: nat)
    requires Shape(Tx, s) && Intact(Tx, s) && Wanted(Tx, s, j, i)
    requires |m| == |s.mem| && s.submitted[j].slot + i < |m|
    requires m[s.submitted[j].slot + i] != s.submitted[j].item.data[i]
    ensures Doomed(Tx, s.(mem := m), j, i)
  {
    var r := s.(mem := m);
    WantedInUse(Tx, s, j, i);
    AloneUnmarked(s, j, i);
    SameQueue(s, r, j);
    SameFills(s, r, j);
    hide Shape, Intact, InQueue, IsFilling, Written, End, InUse;
    assert Unfinished(r) == Unfinished(s);
    assert Unmarked(Tx, r, j, i) && Uncovered(Tx, r, j, i);
  }

  /** The first `n` stores of data_init_bufs. */
  function Stamps(n: nat): (steps: seq<Step>) {
    if n == 0 then [] else Stamps(n - 1) + [Stamp(n - 1)]
  }

  /** `m` is `mem` with the first `n` slots stamped. */
  ghost predicate Stamped(mem: seq<Byte>, m: seq<Byte>, n: nat) {
    && |m| == |mem| == RINGS * SLOT
    && forall p: nat, i: nat :: IsSlot(p) && i < SLOT ==>
         ByteAt(m, p, i) == if p < SLOT * n && i < 4 then MARKER[i] else ByteAt(mem, p, i)
  }

  function ByteAt(m: seq<Byte>, p: nat, i: nat): (b: Byte) {
    if p + i < |m| then m[p + i] else 0
  }

  lemma StampedMore(mem: seq<Byte>, m: seq<Byte>, n: nat)
    requires Stamped(mem, m, n) && n < RINGS
    ensures Stamped(mem, Marked(m, SLOT * n), n + 1)
  {
    var r := Marked(m, SLOT * n);
    IndexSlot(n);
    forall p: nat, i: nat | IsSlot(p) && i < SLOT
      ensures ByteAt(r, p, i) == if p < SLOT * (n + 1) && i < 4 then MARKER[i] else ByteAt(mem, p, i)
    {
      MarkedByte(m, SLOT * n, p, i);
      if p != SLOT * n {
        SlotsApart(p, SLOT * n);
      }
      assert ByteAt(m, p, i) == if p < SLOT * n && i < 4 then MARKER[i] else ByteAt(mem, p, i);
    }
  }

  lemma NoStamps(way: Way, s: State)
    ensures Run(way, s, Stamps(0)) == s
  {}

  lemma {:induction false} StampsCount(n: nat)
    ensures |Stamps(n)| == n
  {
    if n > 0 {
      StampsCount(n - 1);
    }
  }

  lemma LastStamp(way: Way, s: State, n: nat)
    ensures Run(way, s, Stamps(n + 1)) == Next(way, Run(way, s, Stamps(n)), Stamp(n))
  {
    hide Next;
    StampsCount(n);
    assert Stamps(n + 1)[..n] == Stamps(n) && Stamps(n + 1)[n] == Stamp(n);
  }

  lemma StampIs(way: Way, s: State, k: nat)
    requires |s.mem| == RINGS * SLOT && k < RINGS
    ensures Next(way, s, Stamp(k)) == s.(mem := Marked(s.mem, SLOT * k))
  {
    hide Marked;
  }

  lemma StampedSize(mem: seq<Byte>, m: seq<Byte>, n: nat)
    requires Stamped(mem, m, n)
    ensures |m| == |mem| == RINGS * SLOT
  {}

  lemma StampedNone(mem: seq<Byte>)
    requires |mem| == RINGS * SLOT
    ensures Stamped(mem, mem, 0)
  {}

  /** They change nothing but the first four bytes of their slots. */
  lemma {:induction false} StampsWrite(way: Way, s: State, n: nat)
    requires |s.mem| == RINGS * SLOT && n <= RINGS
    ensures var r := Run(way, s, Stamps(n)); r == s.(mem := r.mem) && Stamped(s.mem, r.mem, n)
  {
    hide Stamped, Marked, Run, Next, Stamps;
    if n > 0 {
      StampsWrite(way, s, n - 1);
      LastStamp(way, s, n - 1);
      var p := Run(way, s, Stamps(n - 1));
      StampedSize(s.mem, p.mem, n - 1);
      StampIs(way, p, n - 1);
      StampedMore(s.mem, p.mem, n - 1);
    } else {
      StampedNone(s.mem);
      NoStamps(way, s);
    }
  }

  lemma MemSize(way: Way, s: State)
    requires Shape(way, s)
    ensures |s.mem| == RINGS * SLOT
  {}

  /** READY, exactly: after any careful run, stamping all six slots leaves every
      later delivery right if and only if no byte still to be read stands where a
      stamp would change it. */
  lemma ReadyStampsExact(s: State, steps: seq<Step>)
    requires Boot(s) && Careful(Tx, s, steps)
    ensures var r := Run(Tx, s, steps);
            Survives(Tx, Run(Tx, r, Stamps(RINGS))) <==> forall k :: 0 <= k < RINGS ==> Harmless(Tx, r, k)
  {
    hide Careful, Shape, Intact, Run, Boot, Harmless, Survives, Stamps;
    BootIntact(Tx, s);
    RunIntact(Tx, s, steps);
    var r := Run(Tx, s, steps);
    if forall k :: 0 <= k < RINGS ==> Harmless(Tx, r, k) {
      HarmlessStamps(r, RINGS);
      IntactSurvives(Tx, Run(Tx, r, Stamps(RINGS)));
    } else {
      var k :| 0 <= k < RINGS && !Harmless(Tx, r, k);
      HarmfulStamps(r, k);
    }
  }

  lemma {:induction false} HarmlessStamps(s: State, n: nat)
    requires Shape(Tx, s) && Intact(Tx, s) && n <= RINGS && forall k :: 0 <= k < n ==> Harmless(Tx, s, k)
    ensures Shape(Tx, Run(Tx, s, Stamps(n))) && Intact(Tx, Run(Tx, s, Stamps(n)))
  {
    hide Shape, Intact, Harmless, Next, Stamps, Run, Stamped;
    if n > 0 {
      HarmlessStamps(s, n - 1);
      LastStamp(Tx, s, n - 1);
      var p := Run(Tx, s, Stamps(n - 1));
      MemSize(Tx, s);
      StampsWrite(Tx, s, n - 1);
      SameHarmless(s, p, n - 1);
      ShapeKept(Tx, p, Stamp(n - 1));
      IntactKept(Tx, p, Stamp(n - 1));
    } else {
      NoStamps(Tx, s);
    }
  }

  /** Memory has no say in what is wanted. */
  lemma SameHarmless(s: State, r: State, k: nat)
    requires r == s.(mem := r.mem) && Harmless(Tx, s, k)
    ensures Harmless(Tx, r, k)
  {
    forall j: nat, i: nat | Wanted(Tx, r, j, i)
      ensures Wanted(Tx, s, j, i)
    {
      SameQueue(s, r, j);
      SameFills(s, r, j);
    }
    hide Wanted;
  }

  lemma HarmfulStamps(s: State, k: nat)
    requires Shape(Tx, s) && Intact(Tx, s) && k < RINGS && !Harmless(Tx, s, k)
    ensures !Survives(Tx, Run(Tx, s, Stamps(RINGS)))
  {
    var j: nat, i: nat :| Wanted(Tx, s, j, i) && s.submitted[j].slot == SLOT * k && i < 4 &&
                          s.submitted[j].item.data[i] != MARKER[i];
    WantedInside(Tx, s, j, i);
    MemSize(Tx, s);
    hide Shape, Intact, Wanted, Survives, Run, Stamps, IsSlot;
    StampsWrite(Tx, s, RINGS);
    var r := Run(Tx, s, Stamps(RINGS));
    assert ByteAt(r.mem, s.submitted[j].slot, i) == MARKER[i];
    StampDooms(s, r.mem, j, i);
    RunShape(Tx, s, Stamps(RINGS));
    DoomedFails(Tx, r, j, i);
  }

  /** The same for a single store, wherever it falls among the other steps. */
  lemma StampExact(s: State, steps: seq<Step>, k: nat)
    requires Boot(s) && Careful(Tx, s, steps) && k < RINGS
    ensures var r := Run(Tx, s, steps);
            Survives(Tx, Next(Tx, r, Stamp(k))) <==> Harmless(Tx, r, k)
  {
    hide Careful, Shape, Intact, Run, Boot, Survives, Next, Harmless;
    BootIntact(Tx, s);
    RunIntact(Tx, s, steps);
    var r := Run(Tx, s, steps);
    ShapeKept(Tx, r, Stamp(k));
    if Harmless(Tx, r, k) {
      IntactKept(Tx, r, Stamp(k));
      IntactSurvives(Tx, Next(Tx, r, Stamp(k)));
    } else {
      HarmfulStamp(r, k);
    }
  }

  lemma HarmfulStamp(s: State, k: nat)
    requires Shape(Tx, s) && Intact(Tx, s) && k < RINGS && !Harmless(Tx, s, k)
    ensures !Survives(Tx, Next(Tx, s, Stamp(k)))
  {
    var j: nat, i: nat :| Wanted(Tx, s, j, i) && s.submitted[j].slot == SLOT * k && i < 4 &&
                          s.submitted[j].item.data[i] != MARKER[i];
    WantedInside(Tx, s, j, i);
    MemSize(Tx, s);
    IndexSlot(k);
    MarkedByte(s.mem, SLOT * k, SLOT * k, i);
    ShapeKept(Tx, s, Stamp(k));
    StampIs(Tx, s, k);
    hide Shape, Intact, Wanted, Survives, Marked, IsSlot, Next;
    var r := Next(Tx, s, Stamp(k));
    StampDooms(s, r.mem, j, i);
    DoomedFails(Tx, r, j, i);
  }

  /** On receive no stamp does harm, in any run. */
  lemma RxStampSurvives(s: State, steps: seq<Step>, k: nat)
    requires Boot(s) && Careful(Rx, s, steps)
    ensures Survives(Rx, Next(Rx, Run(Rx, s, steps), Stamp(k)))
  {
    hide Careful, Shape, Intact, Run, Boot, Survives, Harmless, Next;
    BootIntact(Rx, s);
    RunIntact(Rx, s, steps);
    var r := Run(Rx, s, steps);
    RxStampHarmless(r, k);
    ShapeKept(Rx, r, Stamp(k));
    IntactKept(Rx, r, Stamp(k));
    IntactSurvives(Rx, Next(Rx, r, Stamp(k)));
  }

  // Handing out a slot.

  /** Without a clash no item does harm, nested or not. */
  lemma TakeSurvives(way: Way, s: State, steps: seq<Step>, it: Item)
    requires Boot(s) && Careful(way, s, steps) && !Clash(way, Run(way, s, steps))
    ensures Survives(way, Next(way, Run(way, s, steps), Take(it)))
  {
    hide Careful, Shape, Intact, Run, Boot, Survives, Next, Clash;
    BootIntact(way, s);
    RunIntact(way, s, steps);
    var r := Run(way, s, steps);
    ShapeKept(way, r, Take(it));
    IntactKept(way, r, Take(it));
    IntactSurvives(way, Next(way, r, Take(it)));
  }

  /** A data frame of `n` bytes without a trailer, `v` all through. */
  function Frame(n: nat, v: Byte): (f: seq<Byte>)
    requires 6 <= n <= SLOT
    ensures |f| == n && forall i :: 6 <= i < n ==> f[i] == v
  {
    [2, 0] + PutLe16(n - 6) + [0, 0] + seq(n - 6, _ => v)
  }

  /** The length of the shortest frame with a byte `i`. */
  function FrameLength(i: nat): (n: nat)
    requires i < SLOT
    ensures i < n <= SLOT && n % 0x80 == 0 && n >= 0x80
  {
    RoundUpBlock(i + 1)
  }

  /** An item that writes a wrong value over the byte at `i`. */
  function Clobber(way: Way, b: Byte, i: nat): (it: Item)
    requires i < SLOT
  {
    var v: Byte := (b + 1) % 0x100;
    if way.Tx? then Item(seq(i + 1, _ => v), i + 1)
    else Item(Frame(FrameLength(i), v), FrameLength(i) - 6)
  }

  lemma Clobbers(way: Way, b: Byte, i: nat)
    requires Header(way) <= i < SLOT
    ensures var it := Clobber(way, b, i);
            Fits(way, it) && i < |it.data| && it.data[i] != b && (way.Tx? ==> |it.data| == i + 1)
  {
    if way.Rx? {
      RoundedUp(FrameLength(i));
      hide RoundUpBlock, Frame, FrameLength;
    }
  }

  lemma RoundedUp(n: nat)
    requires n % 0x80 == 0
    ensures RoundUpBlock(n) == n
  {}

  /** A letter's or a send's slot refilled: what was unread there is wrong now. */
  lemma LoadedDoom(way: Way, s: State, it: Item, j: nat, i: nat)
    requires Shape(way, s) && Wanted(way, s, j, i) && s.submitted[j].slot == SLOT * s.idx
    requires i < |it.data| && it.data[i] != s.submitted[j].item.data[i] && SLOT * s.idx + |it.data| <= |s.mem|
    requires Unmarked(way, s, j, i)
    requires IsFilling(s, j) ==> Uncovered(way, s, j, i) && !(way.Tx? && i < 4)
    ensures Doomed(way, Loaded(s, it), j, i)
  {
    var t := Loaded(s, it);
    FilledAt(s.mem, SLOT * s.idx, it.data, i);
    assert t.submitted[j] == s.submitted[j] && !Held(t, j, i);
    SameQueue(s, t, j);
    MoreFills(s, t, j, i);
    forall q | 0 <= q < |Unfinished(s)| ensures Unfinished(s)[q].j < |s.submitted| { LettersOld(way, s, q); }
    assert Unfinished(t) == Unfinished(s);
    SameUnmarked(way, s, t, j, i);
    if IsFilling(s, j) {
      LoadedUncovered(way, s, it, j, i);
    }
    hide Shape, Unmarked, Uncovered, InQueue, IsFilling, Written, Filled, End;
  }

  lemma MoreFills(s: State, t: State, j: nat, i: nat)
    requires |t.fills| == |s.fills| + 1 && t.fills[..|s.fills|] == s.fills && t.fills[|s.fills|].j != j
    ensures IsFilling(t, j) <==> IsFilling(s, j)
    ensures Written(s, j, i) ==> Written(t, j, i)
  {
    assert forall p :: 0 <= p < |s.fills| ==> t.fills[p] == s.fills[p];
  }

  lemma LoadedUncovered(way: Way, s: State, it: Item, j: nat, i: nat)
    requires Shape(way, s) && j < |s.submitted| && Uncovered(way, s, j, i) && !(way.Tx? && i < 4)
    requires i < |it.data| && SLOT * s.idx + |it.data| <= |s.mem|
    ensures Uncovered(way, Loaded(s, it), j, i)
  {
    var t := Loaded(s, it);
    forall p | 0 <= p < |t.fills| && t.fills[p].j > j && SameSlot(t, t.fills[p].j, j)
      ensures i < t.fills[p].n
    {
      if p < |s.fills| {
        assert t.fills[p] == s.fills[p] && FillOk(s, s.fills[p]);
        assert SameSlot(s, s.fills[p].j, j);
      }
    }
  }

  function LoadingSteps(it: Item): (steps: seq<Step>) { [Store(false)] + Copies(|it.data|) }

  lemma SlotRoom(way: Way, s: State, it: Item)
    requires Shape(way, s) && Fits(way, it)
    ensures SLOT * s.idx + |it.data| <= |s.mem|
  {
    IndexSlot(s.idx);
    hide EntriesShape, FillsShape, LettersShape, OrderShape;
  }

  lemma LoadingHandles(it: Item)
    ensures Handling(LoadingSteps(it))
  {}

  lemma LoadingIs(way: Way, s: State, it: Item)
    requires Shape(way, s) && Fits(way, it) && (way.Rx? ==> s.fills == [])
    ensures SLOT * s.idx + |it.data| <= |s.mem| && Handling(LoadingSteps(it))
    ensures Run(way, Next(way, s, Take(it)), LoadingSteps(it)) == Loaded(s, it)
  {
    SlotRoom(way, s, it);
    LoadingHandles(it);
    hide Shape, Next, Run, Loaded, Fits, Copies, Handling;
    LoadSteps(way, s, it, false);
    RunCons(way, Next(way, s, Take(it)), Store(false), Copies(|it.data|));
  }

  /** The slot's last packet, unread or half written, is written over. */
  lemma OverwriteFails(way: Way, s: State, j: nat, i: nat)
    requires Shape(way, s) && (way.Rx? ==> s.fills == []) && Wanted(way, s, j, i)
    requires s.submitted[j].slot == SLOT * s.idx && Unmarked(way, s, j, i)
    requires IsFilling(s, j) ==> Uncovered(way, s, j, i) && !(way.Tx? && i < 4)
    ensures i < SLOT
    ensures var it := Clobber(way, s.submitted[j].item.data[i], i);
            Fits(way, it) && !Survives(way, Next(way, s, Take(it)))
  {
    WantedInside(way, s, j, i);
    var it := Clobber(way, s.submitted[j].item.data[i], i);
    Clobbers(way, s.submitted[j].item.data[i], i);
    hide Shape, Wanted, Fits, Next, Clobber, Survives, Loaded, LoadingSteps, Unmarked, Uncovered, IsFilling, Run;
    LoadingIs(way, s, it);
    LoadedDoom(way, s, it, j, i);
    ShapeKept(way, s, Take(it));
    RunShape(way, Next(way, s, Take(it)), LoadingSteps(it));
    ThenFails(way, Next(way, s, Take(it)), LoadingSteps(it), j, i);
  }
}
