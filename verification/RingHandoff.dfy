/** The slot rings that ARM9 and ARM7 share, in both directions: data_init_bufs,
    data_next_buf, data_send_link and data_send_to_lwip of
    arm_host/source/wifi_host.c, and data_next_buf, data_handle_pkt and the
    SENDPKT handler of arm_iop/source/wifi_card.twl.c. The two CPUs interleave
    after every byte copied, and an interrupt on ARM9 may begin a send of its own
    inside another; messages travel through an in-order FIFO. This file holds the
    steps and what every run of them keeps, careful or not. */
module RingHandoff {
  import opened Words

  const RINGS := 6
  const SLOT := 0x600
  const CLAMP := 0x5FA  // DATA_BUF_LEN - 6, the most a reader takes from a slot

  /** Tx: ARM9 fills a slot and announces its base. Rx: ARM7 reads a whole frame
      into a slot and announces the bytes behind the 6-byte frame header. */
  datatype Way = Tx | Rx

  function Header(way: Way): (h: nat) { if way.Tx? then 0 else 6 }

  /** What a producer submits: the bytes for the slot, and the announced length. */
  datatype Item = Item(data: seq<Byte>, len: nat)

  /** A Tx item is at most a slot and never empty, which data_send_link sees to,
      and announces what it holds. An Rx item is a frame in whole blocks; it
      announces all of it but the frame header and up to 255 bytes of trailer. */
  predicate Fits(way: Way, it: Item) {
    && |it.data| <= SLOT
    && (if way.Tx? then it.len == |it.data| > 0
        else |it.data| % 0x80 == 0 && RoundUpBlock(it.len + 6) <= |it.data| <= RoundUpBlock(it.len + 6 + 0xFF))
  }

  /** One past the last byte of the item that its reader may take. */
  function End(way: Way, it: Item): (e: nat) { Header(way) + Min(it.len, CLAMP) }

  lemma FitsEnd(way: Way, it: Item)
    requires Fits(way, it)
    ensures End(way, it) <= |it.data| <= SLOT
  {}

  /** A submission: its item and the slot it was given. */
  datatype Entry = Entry(item: Item, slot: nat)

  datatype Msg = Msg(ptr: nat, len: nat)

  /** A message on its way, with the number of the submission it announces. */
  datatype Letter = Letter(msg: Msg, j: nat)

  /** A send under way: `n` bytes of submission `j` are copied; `seen` is the index
      that data_next_buf read, `stored` whether it has written the next one. */
  datatype Fill = Fill(j: nat, n: nat, seen: nat, stored: bool)

  datatype Consumer = Waiting | Reading(letter: Letter, want: nat, got: seq<Byte>) | Marking(letter: Letter)

  datatype Delivery = Delivery(j: nat, bytes: seq<Byte>)

  /** `fills` is a stack: the last send runs, those below it are suspended by the
      interrupt that began it. `submitted`, `sent` and `delivered` record what went
      in, in which order it was announced, and what came out. */
  datatype State = State(
    mem: seq<Byte>, idx: nat, queue: seq<Letter>, fills: seq<Fill>, cons: Consumer,
    submitted: seq<Entry>, sent: seq<nat>, delivered: seq<Delivery>)

  predicate Boot(s: State) {
    |s.mem| == RINGS * SLOT && s.idx == 0 && s.queue == [] && s.fills == [] && s.cons.Waiting? &&
    s.submitted == [] && s.sent == [] && s.delivered == []
  }

  datatype Step =
    | Take(item: Item)     // data_next_buf reads the index; on Tx also inside another send
    | Store(reload: bool)  // data_next_buf writes it, from memory or from what it read
    | Copy                 // one byte into the slot
    | Send                 // fifoSendDatamsg
    | Keep                 // Rx only: an 802.1X frame, handled on ARM7 without a message
    | Begin(want: nat)     // the other CPU takes the next message
    | Fetch                // one byte out of the slot
    | Finish               // the copy is complete and is handed on
    | Mark                 // *(vu32*)slot = 0xF00FF00F
    | Stamp(k: nat)        // data_init_bufs on READY: the same store to slot k, at any moment

  /** A Tx reader takes all it may; an Rx reader may stop early, where
      pbuf_alloc gave it less room or none. */
  predicate MayTake(way: Way, len: nat, want: nat) {
    if way.Tx? then want == Min(len, CLAMP) else want <= Min(len, CLAMP)
  }

  /** 0xF00FF00F as it lies in memory. */
  const MARKER: seq<Byte> := [0x0F, 0xF0, 0x0F, 0xF0]

  function Marked(mem: seq<Byte>, p: nat): (r: seq<Byte>)
    requires p + 4 <= |mem|
    ensures |r| == |mem|
  {
    mem[p := MARKER[0]][p + 1 := MARKER[1]][p + 2 := MARKER[2]][p + 3 := MARKER[3]]
  }

  /** The send that is running. */
  function Top(s: State): (f: Fill)
    requires |s.fills| > 0
  {
    s.fills[|s.fills| - 1]
  }

  function WithTop(s: State, f: Fill): (fs: seq<Fill>)
    requires |s.fills| > 0
  {
    s.fills[|s.fills| - 1 := f]
  }

  predicate Running(s: State) {
    |s.fills| > 0 && Top(s).j < |s.submitted|
  }

  function EntryOf(s: State): (e: Entry)
    requires Running(s)
  {
    s.submitted[Top(s).j]
  }

  predicate MayCopy(s: State) {
    && Running(s) && Top(s).stored && Top(s).n < |EntryOf(s).item.data|
    && EntryOf(s).slot + Top(s).n < |s.mem|
  }

  predicate Copied(s: State) {
    Running(s) && Top(s).stored && Top(s).n == |EntryOf(s).item.data|
  }

  predicate MayFetch(s: State) {
    && s.cons.Reading? && |s.cons.got| < s.cons.want
    && s.cons.letter.msg.ptr + |s.cons.got| < |s.mem|
  }

  predicate MayMark(way: Way, s: State) {
    && s.cons.Marking? && Header(way) <= s.cons.letter.msg.ptr
    && s.cons.letter.msg.ptr - Header(way) + 4 <= |s.mem|
  }

  /** One step; a step that is not possible changes nothing. */
  function Next(way: Way, s: State, t: Step): (r: State) {
    match t
    case Take(it) =>
      if Fits(way, it) && (way.Rx? ==> s.fills == [])
      then s.(fills := s.fills + [Fill(|s.submitted|, 0, s.idx, false)],
              submitted := s.submitted + [Entry(it, SLOT * s.idx)])
      else s
    case Store(reload) =>
      if |s.fills| > 0 && !Top(s).stored
      then s.(idx := ((if reload then s.idx else Top(s).seen) + 1) % RINGS,
              fills := WithTop(s, Top(s).(stored := true)))
      else s
    case Copy =>
      if MayCopy(s)
      then s.(mem := s.mem[EntryOf(s).slot + Top(s).n := EntryOf(s).item.data[Top(s).n]],
              fills := WithTop(s, Top(s).(n := Top(s).n + 1)))
      else s
    case Send =>
      if Copied(s)
      then
        var msg := Msg(EntryOf(s).slot + Header(way), EntryOf(s).item.len);
        s.(queue := s.queue + [Letter(msg, Top(s).j)], sent := s.sent + [Top(s).j], fills := s.fills[..|s.fills| - 1])
      else s
    case Keep =>
      if way.Rx? && Copied(s) then s.(fills := s.fills[..|s.fills| - 1]) else s
    case Begin(want) =>
      if s.cons.Waiting? && |s.queue| > 0 && MayTake(way, s.queue[0].msg.len, want)
      then s.(queue := s.queue[1..], cons := Reading(s.queue[0], want, []))
      else s
    case Fetch =>
      if MayFetch(s)
      then s.(cons := s.cons.(got := s.cons.got + [s.mem[s.cons.letter.msg.ptr + |s.cons.got|]]))
      else s
    case Finish =>
      if s.cons.Reading? && |s.cons.got| == s.cons.want
      then s.(cons := Marking(s.cons.letter), delivered := s.delivered + [Delivery(s.cons.letter.j, s.cons.got)])
      else s
    case Mark =>
      if MayMark(way, s)
      then s.(mem := Marked(s.mem, s.cons.letter.msg.ptr - Header(way)), cons := Waiting)
      else s
    case Stamp(k) =>
      if k < RINGS && SLOT * k + 4 <= |s.mem| then s.(mem := Marked(s.mem, SLOT * k)) else s
  }

  function Run(way: Way, s: State, steps: seq<Step>): (r: State) {
    if |steps| == 0 then s else Next(way, Run(way, s, steps[..|steps| - 1]), steps[|steps| - 1])
  }

  /** Messages sent and not yet marked as processed, oldest first. */
  function Unfinished(s: State): (ls: seq<Letter>) {
    (if s.cons.Waiting? then [] else [s.cons.letter]) + s.queue
  }

  // The shape of every reachable state.

  /** `p` is the base of a slot. */
  predicate IsSlot(p: nat) { p % SLOT == 0 && p + SLOT <= RINGS * SLOT }

  predicate LetterOk(way: Way, es: seq<Entry>, l: Letter) {
    l.j < |es| && l.msg == Msg(es[l.j].slot + Header(way), es[l.j].item.len)
  }

  predicate EntriesShape(way: Way, s: State) {
    forall j :: 0 <= j < |s.submitted| ==> Fits(way, s.submitted[j].item) && IsSlot(s.submitted[j].slot)
  }

  predicate FillOk(s: State, f: Fill) {
    && f.j < |s.submitted| && f.n <= |s.submitted[f.j].item.data| && f.seen < RINGS && (!f.stored ==> f.n == 0)
  }

  predicate FillsShape(way: Way, s: State) {
    && (forall p :: 0 <= p < |s.fills| ==> FillOk(s, s.fills[p]))
    && (forall p, q :: 0 <= p < q < |s.fills| ==> s.fills[p].j < s.fills[q].j)
    && (way.Rx? ==> |s.fills| <= 1)
  }

  predicate LettersShape(way: Way, s: State) {
    && (forall q :: 0 <= q < |s.queue| ==> LetterOk(way, s.submitted, s.queue[q]))
    && (!s.cons.Waiting? ==> LetterOk(way, s.submitted, s.cons.letter))
    && (s.cons.Reading? ==> MayTake(way, s.cons.letter.msg.len, s.cons.want) && |s.cons.got| <= s.cons.want)
  }

  /** How many announcements are no longer in the queue. */
  function Gone(s: State): (n: nat) { |s.delivered| + if s.cons.Reading? then 1 else 0 }

  /** Messages travel in the order of `sent`, each submission at most once. */
  predicate OrderShape(s: State) {
    && |s.sent| == Gone(s) + |s.queue|
    && (forall k :: 0 <= k < |s.delivered| ==> s.delivered[k].j == s.sent[k])
    && (s.cons.Reading? ==> s.cons.letter.j == s.sent[|s.delivered|])
    && (s.cons.Marking? ==> |s.delivered| > 0 && s.cons.letter.j == s.sent[|s.delivered| - 1])
    && (forall q :: 0 <= q < |s.queue| ==> s.queue[q].j == s.sent[Gone(s) + q])
    && (forall a, b :: 0 <= a < b < |s.sent| ==> s.sent[a] != s.sent[b])
    && (forall a :: 0 <= a < |s.sent| ==> s.sent[a] < |s.submitted|)
    && (forall p, a :: 0 <= p < |s.fills| && 0 <= a < |s.sent| ==> s.fills[p].j != s.sent[a])
    && (forall p :: 0 <= p < |s.fills| ==> s.fills[p].j < |s.submitted|)
  }

  predicate Shape(way: Way, s: State) {
    && |s.mem| == RINGS * SLOT && s.idx < RINGS
    && EntriesShape(way, s) && FillsShape(way, s) && LettersShape(way, s) && OrderShape(s)
  }

  lemma IndexSlot(k: nat)
    requires k < RINGS
    ensures IsSlot(SLOT * k)
  {}

  /** Different slots do not overlap. */
  lemma SlotsApart(p: nat, q: nat)
    requires IsSlot(p) && IsSlot(q) && p != q
    ensures p + SLOT <= q || q + SLOT <= p
  {
    assert p == SLOT * (p / SLOT) && q == SLOT * (q / SLOT);
  }

  lemma EntriesKept(way: Way, s: State, t: Step)
    requires Shape(way, s)
    ensures EntriesShape(way, Next(way, s, t)) && |Next(way, s, t).mem| == |s.mem| && Next(way, s, t).idx < RINGS
  {
    IndexSlot(s.idx);
    hide IsSlot, Fits, FillsShape, LettersShape, OrderShape, Marked;
  }

  lemma FillsKept(way: Way, s: State, t: Step)
    requires Shape(way, s)
    ensures FillsShape(way, Next(way, s, t))
  {
    hide IsSlot, Fits, EntriesShape, LettersShape, Marked;
  }

  lemma LettersKept(way: Way, s: State, t: Step)
    requires Shape(way, s)
    ensures LettersShape(way, Next(way, s, t))
  {
    hide IsSlot, Fits, EntriesShape, Marked, OrderShape;
  }

  lemma SendOrder(way: Way, s: State)
    requires OrderShape(s) && FillsShape(way, s)
    ensures OrderShape(Next(way, s, Send))
  {
    hide FillOk;
    if Copied(s) {
      var r := Next(way, s, Send);
      assert forall p :: 0 <= p < |r.fills| ==> r.fills[p] == s.fills[p] && s.fills[p].j < Top(s).j;
    }
  }

  lemma BeginOrder(way: Way, s: State, want: nat)
    requires OrderShape(s)
    ensures OrderShape(Next(way, s, Begin(want)))
  {}

  lemma TakeOrder(way: Way, s: State, it: Item)
    requires OrderShape(s)
    ensures OrderShape(Next(way, s, Take(it)))
  {
    hide Fits;
  }

  /** Steps of the producer that announce nothing. */
  lemma ProducerOrder(way: Way, s: State, t: Step)
    requires OrderShape(s) && (t.Store? || t.Copy? || t.Keep? || t.Stamp?)
    ensures OrderShape(Next(way, s, t))
  {
    hide Marked;
    var r := Next(way, s, t);
    assert |r.fills| <= |s.fills| && forall p :: 0 <= p < |r.fills| ==> r.fills[p].j == s.fills[p].j;
    assert r == s.(fills := r.fills, mem := r.mem, idx := r.idx);
    hide Next;
  }

  /** Steps of the consumer that take no message. */
  lemma ConsumerOrder(way: Way, s: State, t: Step)
    requires OrderShape(s) && (t.Fetch? || t.Finish? || t.Mark?)
    ensures OrderShape(Next(way, s, t))
  {
    hide Marked;
  }

  lemma OrderKept(way: Way, s: State, t: Step)
    requires Shape(way, s)
    ensures OrderShape(Next(way, s, t))
  {
    hide Next, EntriesShape, LettersShape, FillsShape, OrderShape;
    match t
    case Send => SendOrder(way, s);
    case Begin(want) => BeginOrder(way, s, want);
    case Take(it) => TakeOrder(way, s, it);
    case Fetch => ConsumerOrder(way, s, t);
    case Finish => ConsumerOrder(way, s, t);
    case Mark => ConsumerOrder(way, s, t);
    case _ => ProducerOrder(way, s, t);
  }

  /** Every step, whatever came before, keeps the shape. */
  lemma ShapeKept(way: Way, s: State, t: Step)
    requires Shape(way, s)
    ensures Shape(way, Next(way, s, t))
  {
    EntriesKept(way, s, t);
    FillsKept(way, s, t);
    LettersKept(way, s, t);
    OrderKept(way, s, t);
    hide Next, EntriesShape, FillsShape, LettersShape, OrderShape;
  }

  lemma BootShape(way: Way, s: State)
    requires Boot(s)
    ensures Shape(way, s)
  {}

  lemma {:induction false} RunShape(way: Way, s: State, steps: seq<Step>)
    requires Shape(way, s)
    ensures Shape(way, Run(way, s, steps))
  {
    hide Shape, Next;
    if |steps| > 0 {
      RunShape(way, s, steps[..|steps| - 1]);
      ShapeKept(way, Run(way, s, steps[..|steps| - 1]), steps[|steps| - 1]);
    }
  }

  /** In every run, whatever interrupted what, packets are delivered in the order
      in which they were announced, and none twice. */
  lemma RunInOrder(way: Way, s: State, steps: seq<Step>)
    requires Boot(s)
    ensures var r := Run(way, s, steps);
            && |r.delivered| <= |r.sent|
            && (forall k :: 0 <= k < |r.delivered| ==> r.delivered[k].j == r.sent[k])
            && (forall a, b :: 0 <= a < b < |r.sent| ==> r.sent[a] != r.sent[b])
  {
    hide Run;
    BootShape(way, s);
    RunShape(way, s, steps);
  }

  // Transmission: every packet is announced, so nothing is skipped.

  predicate IsFilling(s: State, j: nat) {
    exists p :: 0 <= p < |s.fills| && s.fills[p].j == j
  }

  predicate IsSent(s: State, j: nat) {
    exists a :: 0 <= a < |s.sent| && s.sent[a] == j
  }

  predicate Accounted(s: State) {
    && |s.submitted| == |s.sent| + |s.fills|
    && forall j: nat :: j < |s.submitted| ==> IsSent(s, j) || IsFilling(s, j)
  }

  lemma StillAccounted(s: State, r: State, j: nat)
    requires IsSent(s, j) || IsFilling(s, j)
    requires forall a :: 0 <= a < |s.sent| ==> a < |r.sent| && r.sent[a] == s.sent[a]
    requires forall p :: 0 <= p < |s.fills| ==> IsFilling(r, s.fills[p].j) || IsSent(r, s.fills[p].j)
    ensures IsSent(r, j) || IsFilling(r, j)
  {
    if IsSent(s, j) {
      var a :| 0 <= a < |s.sent| && s.sent[a] == j;
      assert r.sent[a] == j;
    }
  }

  lemma AccountedKept(s: State, t: Step)
    requires Accounted(s)
    ensures Accounted(Next(Tx, s, t))
  {
    hide Fits, Marked, IsSent, IsFilling;
    var r := Next(Tx, s, t);
    forall p | 0 <= p < |s.fills|
      ensures IsFilling(r, s.fills[p].j) || IsSent(r, s.fills[p].j)
    {
      FillStays(s, t, p);
    }
    assert forall a :: 0 <= a < |s.sent| ==> a < |r.sent| && r.sent[a] == s.sent[a];
    forall j: nat | j < |r.submitted|
      ensures IsSent(r, j) || IsFilling(r, j)
    {
      if j < |s.submitted| {
        StillAccounted(s, r, j);
      } else {
        NewFill(s, t, j);
      }
    }
  }

  lemma FillStays(s: State, t: Step, p: nat)
    requires p < |s.fills|
    ensures var r := Next(Tx, s, t); IsFilling(r, s.fills[p].j) || IsSent(r, s.fills[p].j)
  {
    hide Fits, Marked;
    var r := Next(Tx, s, t);
    if p < |r.fills| {
      assert r.fills[p].j == s.fills[p].j;
    } else {
      assert r.sent[|s.sent|] == s.fills[p].j;
    }
  }

  lemma NewFill(s: State, t: Step, j: nat)
    requires |s.submitted| <= j < |Next(Tx, s, t).submitted|
    ensures IsFilling(Next(Tx, s, t), j)
  {
    hide Fits, Marked;
    var r := Next(Tx, s, t);
    assert r.fills[|s.fills|].j == j;
  }

  lemma {:induction false} RunAccounted(s: State, steps: seq<Step>)
    requires Boot(s)
    ensures Accounted(Run(Tx, s, steps))
  {
    hide Next;
    if |steps| > 0 {
      RunAccounted(s, steps[..|steps| - 1]);
      hide Accounted;
      AccountedKept(Run(Tx, s, steps[..|steps| - 1]), steps[|steps| - 1]);
    }
  }

  predicate IsDelivered(s: State, j: nat) {
    exists k :: 0 <= k < |s.delivered| && s.delivered[k].j == j
  }

  /** No packet is dropped: whenever everything is idle, a frame has been
      transmitted for every packet submitted, and no more. */
  lemma NothingDropped(s: State, steps: seq<Step>)
    requires Boot(s)
    ensures var r := Run(Tx, s, steps);
            r.fills == [] && r.cons.Waiting? && r.queue == [] ==>
              |r.delivered| == |r.submitted| && forall j: nat :: j < |r.submitted| ==> IsDelivered(r, j)
  {
    hide Run;
    BootShape(Tx, s);
    RunShape(Tx, s, steps);
    RunAccounted(s, steps);
    var r := Run(Tx, s, steps);
    hide EntriesShape, FillsShape, LettersShape;
    if r.fills == [] && r.cons.Waiting? && r.queue == [] {
      forall j: nat | j < |r.submitted|
        ensures IsDelivered(r, j)
      {
        assert IsSent(r, j);
        var a :| 0 <= a < |r.sent| && r.sent[a] == j;
        assert r.delivered[a].j == j;
      }
    }
  }

  lemma EntryFits(way: Way, s: State, j: nat)
    requires Shape(way, s) && j < |s.submitted|
    ensures Fits(way, s.submitted[j].item) && IsSlot(s.submitted[j].slot)
    ensures End(way, s.submitted[j].item) <= |s.submitted[j].item.data| <= SLOT
    ensures s.submitted[j].slot + SLOT <= |s.mem|
  {
    hide FillsShape, LettersShape, OrderShape;
    FitsEnd(way, s.submitted[j].item);
  }

  /** Every message of every run keeps its reader inside one slot: the bytes
      read lie behind the header, and the marker covers the slot's first four
      bytes, which for Rx belong to the frame header. */
  lemma ReaderInside(way: Way, s: State, steps: seq<Step>)
    requires Boot(s) && !Run(way, s, steps).cons.Waiting?
    ensures var r := Run(way, s, steps);
            var m := r.cons.letter.msg;
            && r.idx < RINGS && Header(way) <= m.ptr
            && IsSlot(m.ptr - Header(way))
            && m.ptr + Min(m.len, CLAMP) <= m.ptr - Header(way) + SLOT <= |r.mem|
            && (way.Rx? ==> m.ptr - Header(way) + 4 <= m.ptr)
  {
    hide Run;
    BootShape(way, s);
    RunShape(way, s, steps);
    var r := Run(way, s, steps);
    EntryFits(way, r, r.cons.letter.j);
    hide EntriesShape, FillsShape, OrderShape, Fits, IsSlot;
  }

  // The producer's steps in one go, when nothing interrupts them.

  function Copies(n: nat): (steps: seq<Step>) {
    seq(n, _ => Copy)
  }

  /** Memory with `data` at `p`. */
  function Filled(mem: seq<Byte>, p: nat, data: seq<Byte>): (r: seq<Byte>)
    requires p + |data| <= |mem|
    ensures |r| == |mem|
  {
    mem[..p] + data + mem[p + |data|..]
  }

  lemma FilledNext(mem: seq<Byte>, p: nat, data: seq<Byte>, n: nat)
    requires 0 < n <= |data| && p + |data| <= |mem|
    ensures Filled(mem, p, data[..n - 1])[p + n - 1 := data[n - 1]] == Filled(mem, p, data[..n])
  {}

  lemma FilledAt(mem: seq<Byte>, p: nat, data: seq<Byte>, i: nat)
    requires p + |data| <= |mem| && i < |data|
    ensures Filled(mem, p, data)[p + i] == data[i]
  {}

  lemma CopyOnce(way: Way, s: State, r: State, n: nat)
    requires Running(s) && Top(s).stored && n < |EntryOf(s).item.data|
    requires EntryOf(s).slot + |EntryOf(s).item.data| <= |s.mem| == |r.mem|
    requires r == s.(mem := r.mem, fills := WithTop(s, Top(s).(n := n)))
    ensures Next(way, r, Copy) ==
            s.(mem := r.mem[EntryOf(s).slot + n := EntryOf(s).item.data[n]], fills := WithTop(s, Top(s).(n := n + 1)))
  {
    assert WithTop(r, Top(r).(n := n + 1)) == WithTop(s, Top(s).(n := n + 1));
  }

  lemma {:induction false} CopiesFill(way: Way, s: State, n: nat)
    requires Running(s) && Top(s).stored && Top(s).n == 0
    requires n <= |EntryOf(s).item.data| && EntryOf(s).slot + |EntryOf(s).item.data| <= |s.mem|
    ensures Run(way, s, Copies(n)) ==
            s.(mem := Filled(s.mem, EntryOf(s).slot, EntryOf(s).item.data[..n]), fills := WithTop(s, Top(s).(n := n)))
  {
    if n > 0 {
      CopiesFill(way, s, n - 1);
      assert Copies(n)[..n - 1] == Copies(n - 1) && Copies(n)[n - 1] == Copy;
      assert Run(way, s, Copies(n)) == Next(way, Run(way, s, Copies(n - 1)), Copy);
      FilledNext(s.mem, EntryOf(s).slot, EntryOf(s).item.data, n);
      hide Run, Filled, Copies;
      CopyOnce(way, s, Run(way, s, Copies(n - 1)), n - 1);
    } else {
      assert Filled(s.mem, EntryOf(s).slot, EntryOf(s).item.data[..0]) == s.mem;
      assert WithTop(s, Top(s).(n := 0)) == s.fills;
    }
  }

  /** A send as far as its last byte. */
  function Loaded(s: State, it: Item): (r: State)
    requires SLOT * s.idx + |it.data| <= |s.mem|
  {
    s.(mem := Filled(s.mem, SLOT * s.idx, it.data), idx := (s.idx + 1) % RINGS,
       fills := s.fills + [Fill(|s.submitted|, |it.data|, s.idx, true)],
       submitted := s.submitted + [Entry(it, SLOT * s.idx)])
  }

  lemma LoadSteps(way: Way, s: State, it: Item, reload: bool)
    requires Fits(way, it) && (way.Rx? ==> s.fills == []) && SLOT * s.idx + |it.data| <= |s.mem|
    ensures Run(way, Next(way, Next(way, s, Take(it)), Store(reload)), Copies(|it.data|)) == Loaded(s, it)
  {
    hide Fits, Run, Filled, Copies;
    var a := Next(way, s, Take(it));
    var b := Next(way, a, Store(reload));
    assert b.fills == s.fills + [Fill(|s.submitted|, 0, s.idx, true)];
    CopiesFill(way, b, |it.data|);
    assert it.data[..|it.data|] == it.data;
  }

  /** data_send_link, all its steps together. */
  lemma SendSteps(s: State, it: Item, reload: bool)
    requires Shape(Tx, s) && Fits(Tx, it)
    ensures SLOT * s.idx + |it.data| <= |s.mem|
    ensures var t := Next(Tx, Run(Tx, Next(Tx, Next(Tx, s, Take(it)), Store(reload)), Copies(|it.data|)), Send);
            t == s.(mem := Filled(s.mem, SLOT * s.idx, it.data), idx := (s.idx + 1) % RINGS,
                    queue := s.queue + [Letter(Msg(SLOT * s.idx, it.len), |s.submitted|)],
                    submitted := s.submitted + [Entry(it, SLOT * s.idx)], sent := s.sent + [|s.submitted|])
  {
    IndexSlot(s.idx);
    hide Shape, Run, Filled, Copies;
    LoadSteps(Tx, s, it, reload);
    var b := Loaded(s, it);
    assert b.fills[..|s.fills|] == s.fills;
  }

  /** A received 802.1X frame takes a slot but sends no message: what is unfinished
      stays, and the ring has moved on. */
  lemma KeptFrameTakesSlot(s: State, it: Item, reload: bool)
    requires Shape(Rx, s) && s.fills == [] && Fits(Rx, it)
    ensures var t := Next(Rx, Run(Rx, Next(Rx, Next(Rx, s, Take(it)), Store(reload)), Copies(|it.data|)), Keep);
            && Unfinished(t) == Unfinished(s) && t.fills == [] && t.sent == s.sent
            && t.idx == (s.idx + 1) % RINGS && |t.submitted| == |s.submitted| + 1
  {
    IndexSlot(s.idx);
    hide Shape, Run, Filled, Copies;
    LoadSteps(Rx, s, it, reload);
    var b := Loaded(s, it);
    hide Fits;
    assert Copied(b) && b.fills[..0] == [];
    var t := Next(Rx, b, Keep);
    assert t == b.(fills := []);
  }
}
