/** The programmed-I/O loop of wifi_sdio_send_command
    (arm_iop/source/wifi_sdio.twl.c). The status registers are volatile: every
    turn of the loop gets its own readings. The buffer is word-aligned, as the
    routine demands, and so is modelled as 32-bit words. */
module SdioTransfer {
  import opened Words

  /** The command fields the loop looks at. */
  datatype Command = Command(response: bool, transfer: bool, read: bool, block: bool)

  /** The bits of one turn: data ready and data requested, any error bit of
      WIFI_SDIO_MASK_ERR, command busy, and the two readings of IRQ_STAT0. */
  datatype Reading = Reading(
    rxReady: bool, txRequest: bool, error: bool, busy: bool,
    respEndFirst: bool, respEnd: bool, dataEnd: bool)

  /** How the routine ends; Pending means that it is still polling. */
  datatype Exit = Misaligned | Dma | Failed | Complete | Early | Pending

  predicate Ready(cmd: Command, r: Reading) {
    if cmd.read then r.rxReady else r.txRequest
  }

  /** All the completion flags the command waits for. */
  predicate Done(cmd: Command, r: Reading) {
    (cmd.response ==> r.respEnd) && (cmd.transfer ==> r.dataEnd)
  }

  /** Bytes left after one turn: a block moves when the card is ready, there is
      a buffer and a whole block is left. */
  function Left(cmd: Command, r: Reading, buffer: bool, bs: nat, size: nat): (left: nat) {
    if Ready(cmd, r) && buffer && size >= bs then size - bs else size
  }

  /** Why a turn is the last one, if it is. */
  function ExitOf(cmd: Command, r: Reading, early: bool, left: nat): (e: Exit) {
    var ended := if cmd.block then r.respEndFirst && left == 0 else !r.busy;
    if r.error then Failed
    else if ended && Done(cmd, r) then Complete
    else if early && left == 0 then Early
    else Pending
  }

  /** Exit, bytes left and turns taken, over a sequence of readings. */
  function Outcome(cmd: Command, early: bool, buffer: bool, bs: nat, size: nat, rs: seq<Reading>): (o: (Exit, nat, nat))
    decreases |rs|
  {
    if |rs| == 0 then (Pending, size, 0)
    else
      var left := Left(cmd, rs[0], buffer, bs, size);
      var e := ExitOf(cmd, rs[0], early, left);
      if e.Pending? then
        var o := Outcome(cmd, early, buffer, bs, left, rs[1..]);
        (o.0, o.1, o.2 + 1)
      else (e, left, 1)
  }

  /** How many of the first `n` turns found the card ready. */
  function ReadyTurns(cmd: Command, rs: seq<Reading>, n: nat): (k: nat)
    requires n <= |rs|
    decreases n
  {
    if n == 0 then 0
    else
      var ready := (cmd.read && rs[0].rxReady) || (!cmd.read && rs[0].txRequest);
      (if ready then 1 else 0) + ReadyTurns(cmd, rs[1..], n - 1)
  }

  /** Taking `n` blocks, as long as whole ones are left. */
  function Drain(size: nat, bs: nat, n: nat): (left: nat)
    decreases n
  {
    if n == 0 || size < bs then size else Drain(size - bs, bs, n - 1)
  }

  /** Bytes left after `k` turns. */
  function LeftAfter(cmd: Command, buffer: bool, bs: nat, size: nat, rs: seq<Reading>, k: nat): (left: nat)
    requires k <= |rs|
  {
    if buffer then Drain(size, bs, ReadyTurns(cmd, rs, k)) else size
  }

  /** All the flags the command waits for are set, and it has ended: it is not busy,
      or, for a block command, its response has ended and nothing is left. */
  predicate Finished(cmd: Command, r: Reading, left: nat) {
    && (cmd.response ==> r.respEnd) && (cmd.transfer ==> r.dataEnd)
    && (!cmd.block ==> !r.busy) && (cmd.block ==> r.respEndFirst && left == 0)
  }

  /** The loop has a reason to end at turn `k`. */
  predicate Stops(cmd: Command, early: bool, buffer: bool, bs: nat, size: nat, rs: seq<Reading>, k: nat)
    requires k < |rs|
  {
    var left := LeftAfter(cmd, buffer, bs, size, rs, k + 1);
    rs[k].error || Finished(cmd, rs[k], left) || (early && left == 0)
  }

  /** None of the first `n` turns gives one. */
  predicate Quiet(cmd: Command, early: bool, buffer: bool, bs: nat, size: nat, rs: seq<Reading>, n: nat)
    requires n <= |rs|
  {
    forall k :: 0 <= k < n ==> !Stops(cmd, early, buffer, bs, size, rs, k)
  }

  /** The loop, exactly: it ends at the first turn that gives a reason to, and goes
      on if there is none; an error bit comes before completion, and completion
      before break_early. Every ready turn up to there moves one block until less
      than a block is left. */
  lemma {:induction false} LoopOutcome(cmd: Command, early: bool, buffer: bool, bs: nat, size: nat, rs: seq<Reading>)
    ensures var o := Outcome(cmd, early, buffer, bs, size, rs);
            && o.2 <= |rs| && o.1 == LeftAfter(cmd, buffer, bs, size, rs, o.2)
            && (o.0.Pending? <==> Quiet(cmd, early, buffer, bs, size, rs, |rs|))
            && (o.0.Pending? ==> o.2 == |rs|)
            && (!o.0.Pending? ==>
                  && o.2 > 0 && Quiet(cmd, early, buffer, bs, size, rs, o.2 - 1)
                  && Stops(cmd, early, buffer, bs, size, rs, o.2 - 1)
                  && var r := rs[o.2 - 1];
                     && (o.0.Failed? <==> r.error)
                     && (o.0.Complete? <==> !r.error && Finished(cmd, r, o.1))
                     && (o.0.Early? <==> !r.error && !Finished(cmd, r, o.1)))
            && !o.0.Misaligned? && !o.0.Dma?
    decreases |rs|
  {
    if |rs| > 0 {
      var left, rest := Left(cmd, rs[0], buffer, bs, size), rs[1..];
      var o := Outcome(cmd, early, buffer, bs, left, rest);
      OutcomeStep(cmd, early, buffer, bs, size, rs);
      FirstTurn(cmd, early, buffer, bs, size, rs);
      TurnExit(cmd, rs[0], early, left);
      hide Outcome, LeftAfter, Left, ExitOf, Stops, Finished, Quiet;
      LoopOutcome(cmd, early, buffer, bs, left, rest);
      LeftShifts(cmd, buffer, bs, size, rs, o.2);
      QuietShifts(cmd, early, buffer, bs, size, rs, |rest|);
      QuietNone(cmd, early, buffer, bs, size, rs);
      if o.2 > 0 {
        StopsShifts(cmd, early, buffer, bs, size, rs, o.2 - 1);
        QuietShifts(cmd, early, buffer, bs, size, rs, o.2 - 1);
      }
    } else {
      hide Drain;
    }
  }

  lemma QuietNone(cmd: Command, early: bool, buffer: bool, bs: nat, size: nat, rs: seq<Reading>)
    ensures Quiet(cmd, early, buffer, bs, size, rs, 0)
    ensures |rs| > 0 && Stops(cmd, early, buffer, bs, size, rs, 0) ==> !Quiet(cmd, early, buffer, bs, size, rs, |rs|)
  {
    hide Stops;
  }

  lemma FirstTurn(cmd: Command, early: bool, buffer: bool, bs: nat, size: nat, rs: seq<Reading>)
    requires |rs| > 0
    ensures var left := Left(cmd, rs[0], buffer, bs, size);
            && left == LeftAfter(cmd, buffer, bs, size, rs, 1)
            && (Stops(cmd, early, buffer, bs, size, rs, 0) <==>
                  rs[0].error || Finished(cmd, rs[0], left) || (early && left == 0))
  {
    LeftShifts(cmd, buffer, bs, size, rs, 0);
    hide Finished, Left;
    assert ReadyTurns(cmd, rs[1..], 0) == 0;
  }

  lemma LeftShifts(cmd: Command, buffer: bool, bs: nat, size: nat, rs: seq<Reading>, k: nat)
    requires k < |rs|
    ensures LeftAfter(cmd, buffer, bs, size, rs, k + 1) ==
            LeftAfter(cmd, buffer, bs, Left(cmd, rs[0], buffer, bs, size), rs[1..], k)
  {
    DrainStep(cmd, buffer, bs, size, rs[0], ReadyTurns(cmd, rs[1..], k));
  }

  lemma StopsShifts(cmd: Command, early: bool, buffer: bool, bs: nat, size: nat, rs: seq<Reading>, k: nat)
    requires k + 1 < |rs|
    ensures Stops(cmd, early, buffer, bs, size, rs, k + 1) ==
            Stops(cmd, early, buffer, bs, Left(cmd, rs[0], buffer, bs, size), rs[1..], k)
  {
    LeftShifts(cmd, buffer, bs, size, rs, k + 1);
    hide LeftAfter, Left, Finished;
  }

  lemma QuietShifts(cmd: Command, early: bool, buffer: bool, bs: nat, size: nat, rs: seq<Reading>, n: nat)
    requires n + 1 <= |rs|
    ensures Quiet(cmd, early, buffer, bs, size, rs, n + 1) <==>
            !Stops(cmd, early, buffer, bs, size, rs, 0) &&
            Quiet(cmd, early, buffer, bs, Left(cmd, rs[0], buffer, bs, size), rs[1..], n)
  {
    var left := Left(cmd, rs[0], buffer, bs, size);
    forall k | 0 <= k < n
      ensures Stops(cmd, early, buffer, bs, size, rs, k + 1) == Stops(cmd, early, buffer, bs, left, rs[1..], k)
    {
      StopsShifts(cmd, early, buffer, bs, size, rs, k);
    }
    hide Stops, Left;
    if !Stops(cmd, early, buffer, bs, size, rs, 0) && Quiet(cmd, early, buffer, bs, left, rs[1..], n) {
      forall k | 0 <= k < n + 1
        ensures !Stops(cmd, early, buffer, bs, size, rs, k)
      {
        if k > 0 {
          assert !Stops(cmd, early, buffer, bs, left, rs[1..], k - 1);
        }
      }
    }
    if Quiet(cmd, early, buffer, bs, size, rs, n + 1) {
      forall k | 0 <= k < n
        ensures !Stops(cmd, early, buffer, bs, left, rs[1..], k)
      {
        assert !Stops(cmd, early, buffer, bs, size, rs, k + 1);
      }
    }
  }

  /** One turn's exit, in the bits it depends on. */
  lemma TurnExit(cmd: Command, r: Reading, early: bool, left: nat)
    ensures var e := ExitOf(cmd, r, early, left);
            && (e.Failed? <==> r.error) && (e.Complete? <==> !r.error && Finished(cmd, r, left))
            && (e.Early? <==> !r.error && !Finished(cmd, r, left) && early && left == 0)
            && (e.Pending? <==> !r.error && !Finished(cmd, r, left) && !(early && left == 0))
  {}

  /** Blocks taken: as many as asked for, as long as whole ones are left. */
  lemma {:induction false} DrainIs(size: nat, bs: nat, n: nat) returns (m: nat)
    ensures m <= n && bs * m <= size && Drain(size, bs, n) == size - bs * m
    ensures m == n || size - bs * m < bs
    decreases n
  {
    if n == 0 || size < bs {
      m := 0;
    } else {
      var k := DrainIs(size - bs, bs, n - 1);
      m := k + 1;
      assert bs * m == bs * k + bs;
    }
  }

  lemma DrainStep(cmd: Command, buffer: bool, bs: nat, size: nat, r: Reading, n: nat)
    ensures buffer ==>
              Drain(Left(cmd, r, buffer, bs, size), bs, n) == Drain(size, bs, n + if Ready(cmd, r) then 1 else 0)
  {
    if buffer && Ready(cmd, r) && size < bs {
      assert Drain(size, bs, n) == size;
    }
  }

  /** A block command without a buffer and with bytes still to move can only end
      with an error. */
  lemma {:induction false} StuckWithoutBuffer(cmd: Command, early: bool, bs: nat, size: nat, rs: seq<Reading>)
    requires cmd.block && size > 0
    ensures var o := Outcome(cmd, early, false, bs, size, rs); o.0.Failed? || o.0.Pending?
    decreases |rs|
  {
    if |rs| > 0 {
      StuckWithoutBuffer(cmd, early, bs, size, rs[1..]);
    }
  }

  /** Each turn moves its block, if any, on top of those before it. */
  lemma {:induction false} LeftSnoc(cmd: Command, buffer: bool, bs: nat, size: nat, rs: seq<Reading>, k: nat)
    requires k < |rs|
    ensures LeftAfter(cmd, buffer, bs, size, rs, k + 1) ==
            Left(cmd, rs[k], buffer, bs, LeftAfter(cmd, buffer, bs, size, rs, k))
    decreases k
  {
    LeftShifts(cmd, buffer, bs, size, rs, k);
    if k > 0 {
      var left := Left(cmd, rs[0], buffer, bs, size);
      LeftShifts(cmd, buffer, bs, size, rs, k - 1);
      hide LeftAfter, Left;
      LeftSnoc(cmd, buffer, bs, left, rs[1..], k - 1);
      assert rs[1..][k - 1] == rs[k];
    } else {
      FirstTurn(cmd, false, buffer, bs, size, rs);
    }
  }

  /** The command counts as ended at turn `k`, and its interrupt flags are looked at. */
  predicate Looked(cmd: Command, buffer: bool, bs: nat, size: nat, rs: seq<Reading>, k: nat)
    requires k < |rs|
  {
    && !rs[k].error && (!cmd.block ==> !rs[k].busy)
    && (cmd.block ==> rs[k].respEndFirst && LeftAfter(cmd, buffer, bs, size, rs, k + 1) == 0)
  }

  /** Some of the first `n` turns saw the response end. */
  predicate SawResponse(cmd: Command, buffer: bool, bs: nat, size: nat, rs: seq<Reading>, n: nat)
    requires n <= |rs|
  {
    exists k :: 0 <= k < n && rs[k].respEnd && Looked(cmd, buffer, bs, size, rs, k)
  }

  predicate SawDataEnd(cmd: Command, buffer: bool, bs: nat, size: nat, rs: seq<Reading>, n: nat)
    requires n <= |rs|
  {
    exists k :: 0 <= k < n && rs[k].dataEnd && Looked(cmd, buffer, bs, size, rs, k)
  }

  lemma SawMore(cmd: Command, buffer: bool, bs: nat, size: nat, rs: seq<Reading>, n: nat)
    requires n < |rs|
    ensures SawResponse(cmd, buffer, bs, size, rs, n + 1) <==>
            SawResponse(cmd, buffer, bs, size, rs, n) || (rs[n].respEnd && Looked(cmd, buffer, bs, size, rs, n))
    ensures SawDataEnd(cmd, buffer, bs, size, rs, n + 1) <==>
            SawDataEnd(cmd, buffer, bs, size, rs, n) || (rs[n].dataEnd && Looked(cmd, buffer, bs, size, rs, n))
  {
    hide Looked;
  }

  /** What the words moved so far mean for the buffer. */
  predicate Transferred(read: bool, before: seq<U32>, now: seq<U32>, fifo: seq<U32>, moved: seq<U32>) {
    |moved| <= |before| &&
    if read then moved <= fifo && now == moved + before[|moved|..] else moved <= before && now == before
  }

  lemma TransferStart(read: bool, before: seq<U32>, fifo: seq<U32>)
    ensures Transferred(read, before, before, fifo, [])
  {}

  /** The next words, taken into their place, extend what was received. */
  lemma TransferGrows(before: seq<U32>, was: seq<U32>, fifo: seq<U32>, moved: seq<U32>, n: nat)
    requires Transferred(true, before, was, fifo, moved) && |moved| <= n <= |before| && n <= |fifo|
    ensures Transferred(true, before, was[..|moved|] + fifo[|moved|..n] + was[n..], fifo, fifo[..n])
  {
    assert was[..|moved|] + fifo[|moved|..n] == fifo[..n];
    assert was[n..] == before[n..];
  }

  lemma OutcomeStep(cmd: Command, early: bool, buffer: bool, bs: nat, size: nat, rs: seq<Reading>)
    requires |rs| > 0
    ensures var left := Left(cmd, rs[0], buffer, bs, size);
            var e := ExitOf(cmd, rs[0], early, left);
            var o := Outcome(cmd, early, buffer, bs, left, rs[1..]);
            Outcome(cmd, early, buffer, bs, size, rs) == if e.Pending? then (o.0, o.1, o.2 + 1) else (e, left, 1)
  {
    hide Left, ExitOf;
  }

  lemma OutcomeEnd(cmd: Command, early: bool, buffer: bool, bs: nat, size: nat, rs: seq<Reading>)
    requires rs == []
    ensures Outcome(cmd, early, buffer, bs, size, rs) == (Pending, size, 0)
  {}

  lemma NothingSeen(cmd: Command, buffer: bool, bs: nat, size: nat, rs: seq<Reading>)
    ensures LeftAfter(cmd, buffer, bs, size, rs, 0) == size
    ensures !SawResponse(cmd, buffer, bs, size, rs, 0) && !SawDataEnd(cmd, buffer, bs, size, rs, 0)
  {}

  class Context {
    var blockSize: nat
    var buffer: array?<U32>
    var size: nat
    var breakEarly: bool
    var sawResponse: bool  // status bit 0
    var sawDataEnd: bool   // status bit 1
    var sawError: bool     // status bit 2

    ghost function Words(): (s: seq<U32>)
      reads this, buffer
    {
      if buffer == null then [] else buffer[..]
    }

    /** One block into the buffer, word by word from the data FIFO. */
    method ReadBlock(at: nat, fifo: seq<U32>)
      requires buffer != null && blockSize % 4 == 0 && at + blockSize / 4 <= buffer.Length
      requires at + blockSize / 4 <= |fifo|
      modifies buffer
      ensures buffer[..] == old(buffer[..at]) + fifo[at..at + blockSize / 4] + old(buffer[at + blockSize / 4..])
    {
      var end, p := at + blockSize / 4, at;
      while p != end
        invariant at <= p <= end
        invariant forall k :: at <= k < p ==> buffer[k] == fifo[k]
        invariant forall k :: 0 <= k < at || p <= k < buffer.Length ==> buffer[k] == old(buffer[k])
        decreases end - p
      {
        buffer[p] := fifo[p];
        p := p + 1;
      }
    }

    /** One block out of the buffer to the data FIFO. */
    method WriteBlock(at: nat, sent: seq<U32>) returns (moved: seq<U32>)
      requires buffer != null && blockSize % 4 == 0 && at + blockSize / 4 <= buffer.Length
      requires sent == buffer[..at]
      ensures moved == buffer[..at + blockSize / 4]
    {
      moved := sent;
      var end, p := at + blockSize / 4, at;
      while p != end
        invariant at <= p <= end && moved == buffer[..p]
        decreases end - p
      {
        moved := moved + [buffer[p]];
        p := p + 1;
      }
    }

    /** The receiving half of a turn. */
    method MoveIn(ghost before: seq<U32>, fifo: seq<U32>, moved0: seq<U32>) returns (moved: seq<U32>)
      requires buffer != null && blockSize % 4 == 0
      requires Transferred(true, before, buffer[..], fifo, moved0)
      requires |moved0| + blockSize / 4 <= buffer.Length && |moved0| + blockSize / 4 <= |fifo|
      modifies buffer
      ensures |moved| == |moved0| + blockSize / 4 && Transferred(true, before, buffer[..], fifo, moved)
    {
      ghost var was := buffer[..];
      var n := |moved0| + blockSize / 4;
      ReadBlock(|moved0|, fifo);
      moved := fifo[..n];
      TransferGrows(before, was, fifo, moved0, n);
      hide Transferred;
    }

    /** The data half of one turn. */
    method Move(cmd: Command, r: Reading, ghost before: seq<U32>, fifo: seq<U32>, moved0: seq<U32>, left0: nat)
      returns (moved: seq<U32>, left: nat)
      requires blockSize > 0 && (buffer != null && left0 >= blockSize ==> blockSize % 4 == 0)
      requires Transferred(cmd.read, before, Words(), fifo, moved0)
      requires buffer != null ==> 4 * |moved0| + left0 <= 4 * buffer.Length && 4 * |moved0| + left0 <= 4 * |fifo|
      modifies buffer
      ensures left == Left(cmd, r, buffer != null, blockSize, left0)
      ensures 4 * |moved| + left == 4 * |moved0| + left0
      ensures Transferred(cmd.read, before, Words(), fifo, moved)
    {
      moved, left := moved0, left0;
      assert buffer != null && left >= blockSize ==> 4 * (blockSize / 4) == blockSize;
      if r.rxReady && cmd.read && buffer != null && left > blockSize - 1 {
        hide Transferred;
        moved := MoveIn(before, fifo, moved);
        left := left - blockSize;
      }
      if r.txRequest && !cmd.read && buffer != null && left > blockSize - 1 {
        moved := WriteBlock(|moved|, moved);
        left := left - blockSize;
      }
    }

    /** The other half: does this turn end the loop? */
    method Settle(cmd: Command, r: Reading, left: nat) returns (exit: Exit)
      modifies this`sawResponse, this`sawDataEnd, this`sawError
      ensures exit == ExitOf(cmd, r, breakEarly, left)
      ensures sawError == (old(sawError) || exit.Failed?)
      ensures var looked := !r.error && (!cmd.block ==> !r.busy) && (cmd.block ==> r.respEndFirst && left == 0);
              && sawResponse == (old(sawResponse) || (looked && r.respEnd))
              && sawDataEnd == (old(sawDataEnd) || (looked && r.dataEnd))
    {
      if r.error {
        sawError := true;
        return Failed;
      }
      var ended := !r.busy;
      if cmd.block {
        ended := r.respEndFirst && left == 0;
      }
      if ended {
        sawResponse, sawDataEnd := sawResponse || r.respEnd, sawDataEnd || r.dataEnd;
        if Done(cmd, r) {
          return Complete;
        }
      }
      return if breakEarly && left == 0 then Early else Pending;
    }

    /** The polling loop. */
    method PollLoop(cmd: Command, readings: seq<Reading>, fifo: seq<U32>)
      returns (exit: Exit, moved: seq<U32>, left: nat, turns: nat)
      requires blockSize > 0 && !sawError && !sawResponse && !sawDataEnd
      requires buffer != null && size >= blockSize ==> blockSize % 4 == 0
      requires buffer != null ==> size <= 4 * buffer.Length && size <= 4 * |fifo|
      modifies this`sawResponse, this`sawDataEnd, this`sawError, buffer
      ensures (exit, left, turns) == Outcome(cmd, breakEarly, buffer != null, blockSize, size, readings)
      ensures 4 * |moved| + left == size && Transferred(cmd.read, old(Words()), Words(), fifo, moved)
      ensures sawError <==> exit.Failed?
      ensures turns <= |readings|
      ensures sawResponse <==> SawResponse(cmd, buffer != null, blockSize, size, readings, turns)
      ensures sawDataEnd <==> SawDataEnd(cmd, buffer != null, blockSize, size, readings, turns)
    {
      hide Transferred, Left, Outcome, ExitOf, SawResponse, SawDataEnd, LeftAfter;
      exit, left, moved, turns := Pending, size, [], 0;
      ghost var before, hasBuf := Words(), buffer != null;
      ghost var goal := Outcome(cmd, breakEarly, hasBuf, blockSize, size, readings);
      assert readings[0..] == readings;
      TransferStart(cmd.read, before, fifo);
      NothingSeen(cmd, hasBuf, blockSize, size, readings);
      while turns < |readings|
        invariant turns <= |readings| && 4 * |moved| + left == size && exit.Pending? && !sawError
        invariant Transferred(cmd.read, before, Words(), fifo, moved)
        invariant left == LeftAfter(cmd, hasBuf, blockSize, size, readings, turns)
        invariant sawResponse <==> SawResponse(cmd, hasBuf, blockSize, size, readings, turns)
        invariant sawDataEnd <==> SawDataEnd(cmd, hasBuf, blockSize, size, readings, turns)
        invariant var o := Outcome(cmd, breakEarly, hasBuf, blockSize, left, readings[turns..]);
                  goal == (o.0, o.1, o.2 + turns)
      {
        var r := readings[turns];
        ghost var rest := readings[turns..];
        OutcomeStep(cmd, breakEarly, hasBuf, blockSize, left, rest);
        LeftSnoc(cmd, hasBuf, blockSize, size, readings, turns);
        SawMore(cmd, hasBuf, blockSize, size, readings, turns);
        assert rest[0] == r && rest[1..] == readings[turns + 1..];
        moved, left := Move(cmd, r, before, fifo, moved, left);
        turns := turns + 1;
        exit := Settle(cmd, r, left);
        if exit != Pending {
          return;
        }
      }
      OutcomeEnd(cmd, breakEarly, hasBuf, blockSize, left, readings[turns..]);
    }

    /** wifi_sdio_send_command. A block that is to be moved must consist of whole
        words, or the loop that moves it never meets its end. `fifo` is what the
        card would send; `moved` is what went through the data FIFO, in order. */
    method SendCommand(cmd: Command, aligned: bool, readings: seq<Reading>, fifo: seq<U32>)
      returns (exit: Exit, moved: seq<U32>, left: nat, turns: nat)
      requires buffer != null && aligned && !cmd.block && size >= blockSize ==> blockSize % 4 == 0
      requires buffer != null ==> size <= 4 * buffer.Length && size <= 4 * |fifo|
      modifies this`blockSize, this`sawResponse, this`sawDataEnd, this`sawError, buffer
      ensures blockSize == if old(blockSize) == 0 then 512 else old(blockSize)
      ensures (exit, left, turns) ==
              if buffer != null && !aligned then (Misaligned, size, 0)
              else if buffer != null && cmd.block then (Dma, size, 0)
              else Outcome(cmd, breakEarly, buffer != null, blockSize, size, readings)
      ensures 4 * |moved| + left == size
      ensures Transferred(cmd.read, old(Words()), Words(), fifo, moved)
      ensures sawError <==> exit.Misaligned? || exit.Failed?
      ensures turns <= |readings|
      ensures sawResponse <==> SawResponse(cmd, buffer != null, blockSize, size, readings, turns)
      ensures sawDataEnd <==> SawDataEnd(cmd, buffer != null, blockSize, size, readings, turns)
    {
      if blockSize == 0 {
        blockSize := 512;
      }
      sawResponse, sawDataEnd, sawError := false, false, false;
      TransferStart(cmd.read, Words(), fifo);
      LoopOutcome(cmd, breakEarly, buffer != null, blockSize, size, readings);
      NothingSeen(cmd, buffer != null, blockSize, size, readings);
      hide Transferred, Outcome, SawResponse, SawDataEnd, LeftAfter;
      if buffer != null && !aligned {
        sawError := true;
        return Misaligned, [], size, 0;
      }
      if buffer != null && cmd.block {
        return Dma, [], size, 0;
      }
      exit, moved, left, turns := PollLoop(cmd, readings, fifo);
    }
  }
}
