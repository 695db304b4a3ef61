/** common/source/spinlock.s: the two-CPU spinlock, instruction by instruction.
    The listing is kept as data and interpreted, and the two CPUs interleave
    after every instruction. */
module Spinlock {

  datatype Cond = Al | Eq | Ne

  /** The instructions the listing uses; registers r0, r1, r2 and the Z flag. */
  datatype Instr =
    | LdrR2          // ldr r2,[r0]
    | SwpR2          // swp r2,r2,[r0]
    | CmpR2Zero      // cmp r2,#0
    | CmpR2R1(c: Cond)
    | MovR0(c: Cond, n: int)
    | MovR2Zero      // mov r2,#0
    | MovR2R1        // mov r2,r1
    | Bx(c: Cond)    // bx lr

  const ACQUIRE: seq<Instr> := [
    LdrR2, CmpR2Zero, MovR0(Ne, 1), Bx(Ne), MovR2R1, SwpR2, CmpR2Zero, CmpR2R1(Ne),
    MovR0(Eq, 0), Bx(Eq), SwpR2, MovR0(Al, 1), Bx(Al)]

  const RELEASE: seq<Instr> := [
    LdrR2, CmpR2R1(Al), MovR0(Ne, 2), Bx(Ne), MovR2Zero, SwpR2, CmpR2R1(Al),
    MovR0(Eq, 0), MovR0(Ne, 2), Bx(Al)]

  const ARM7 := 1
  const ARM9 := 2
  const LOCK := 0x2000  // where the lock word lives; any address but 0, 1 and 2 will do

  /** What a CPU is doing: its own code, or instruction `n` of one of the routines. */
  datatype Pc = Outside | Acq(n: nat) | Rel(n: nat)

  /** `owns` is what the caller knows: an Acquire returned 0 and no Release has
      returned 0 since. */
  datatype Cpu = Cpu(me: int, pc: Pc, r0: int, r1: int, r2: int, z: bool, owns: bool)

  datatype Sys = Sys(arm7: Cpu, arm9: Cpu, lock: int)

  predicate Passes(c: Cond, z: bool) { c.Al? || (c.Eq? && z) || (c.Ne? && !z) }

  function Advance(pc: Pc): (r: Pc) {
    match pc
    case Outside => Outside
    case Acq(n) => Acq(n + 1)
    case Rel(n) => Rel(n + 1)
  }

  /** Memory holds the lock word; every other address reads as 0. */
  function ReadAt(a: int, lock: int): (v: int) { if a == LOCK then lock else 0 }

  function WriteAt(a: int, v: int, lock: int): (r: int) { if a == LOCK then v else lock }

  /** One instruction. A return hands r0 to the caller, who then knows whether
      the lock is its own. */
  function Exec(i: Instr, c: Cpu, lock: int): (r: (Cpu, int)) {
    var next := c.(pc := Advance(c.pc));
    match i
    case LdrR2 => (next.(r2 := ReadAt(c.r0, lock)), lock)
    case SwpR2 => (next.(r2 := ReadAt(c.r0, lock)), WriteAt(c.r0, c.r2, lock))
    case CmpR2Zero => (next.(z := c.r2 == 0), lock)
    case CmpR2R1(k) => (if Passes(k, c.z) then next.(z := c.r2 == c.r1) else next, lock)
    case MovR0(k, n) => (if Passes(k, c.z) then next.(r0 := n) else next, lock)
    case MovR2Zero => (next.(r2 := 0), lock)
    case MovR2R1 => (next.(r2 := c.r1), lock)
    case Bx(k) =>
      var owns := if c.pc.Acq? then c.owns || c.r0 == 0 else c.owns && c.r0 != 0;
      (if Passes(k, c.z) then c.(pc := Outside, owns := owns) else next, lock)
  }

  /** A CPU may call Acquire and Release whenever it runs its own code, and
      otherwise runs the next instruction. */
  datatype Action = CallAcquire | CallRelease | Step

  function Act(a: Action, c: Cpu, lock: int): (r: (Cpu, int)) {
    match a
    case CallAcquire =>
      (if c.pc.Outside? then c.(pc := Acq(0), r0 := LOCK, r1 := c.me) else c, lock)
    case CallRelease =>
      (if c.pc.Outside? then c.(pc := Rel(0), r0 := LOCK, r1 := c.me) else c, lock)
    case Step =>
      if c.pc.Acq? && c.pc.n < |ACQUIRE| then Exec(ACQUIRE[c.pc.n], c, lock)
      else if c.pc.Rel? && c.pc.n < |RELEASE| then Exec(RELEASE[c.pc.n], c, lock)
      else (c, lock)
  }

  datatype Turn = On7(a: Action) | On9(a: Action)

  function Next(s: Sys, t: Turn): (r: Sys) {
    match t
    case On7(a) => var p := Act(a, s.arm7, s.lock); Sys(p.0, s.arm9, p.1)
    case On9(a) => var p := Act(a, s.arm9, s.lock); Sys(s.arm7, p.0, p.1)
  }

  /** The state after any interleaving. Turns that are not possible do nothing. */
  function Run(s: Sys, turns: seq<Turn>): (r: Sys) {
    if |turns| == 0 then s else Next(Run(s, turns[..|turns| - 1]), turns[|turns| - 1])
  }

  predicate Boot(s: Sys) {
    && s.arm7.me == ARM7 && s.arm7.pc.Outside? && !s.arm7.owns
    && s.arm9.me == ARM9 && s.arm9.pc.Outside? && !s.arm9.owns
    && s.lock == 0
  }

  /** From the swap that took the lock to the swap that gave it back. */
  predicate Holds(c: Cpu) {
    match c.pc
    case Outside => c.owns
    case Acq(n) => c.owns || (6 <= n <= 9 && (c.r2 == 0 || c.r2 == c.me))
    case Rel(n) => c.owns && (n <= 5 || c.r2 != c.me)
  }

  /** Between the swap that found the lock taken and the swap that puts the
      owner's mark back. */
  predicate Reverting(c: Cpu) {
    c.pc.Acq? && 6 <= c.pc.n <= 10 && c.r2 != 0 && c.r2 != c.me
  }

  // Owners that do not call Acquire, as wifi_shared.h has it: after a Release that
  // returned 2 the only call left is Release again.

  predicate Polite(a: Action, c: Cpu) { a.CallAcquire? && c.pc.Outside? ==> !c.owns }

  predicate Disciplined(s: Sys, turns: seq<Turn>) {
    |turns| > 0 ==>
      && Disciplined(s, turns[..|turns| - 1])
      && var p, t := Run(s, turns[..|turns| - 1]), turns[|turns| - 1];
         Polite(t.a, if t.On7? then p.arm7 else p.arm9)
  }

  /** The registers at each instruction of Acquire. */
  predicate AcquireRegs(c: Cpu, n: nat) {
    && !c.owns && c.r1 == c.me && n < |ACQUIRE|
    && (n <= 2 || 4 <= n <= 8 || n == 10 ==> c.r0 == LOCK)
    && (2 <= n <= 3 || n == 7 ==> (c.z <==> c.r2 == 0))
    && (n == 3 ==> c.r0 == if c.z then LOCK else 1)
    && (n == 5 ==> c.r2 == c.me)
    && (6 <= n <= 10 ==> c.r2 != c.me)
    && (8 <= n <= 9 ==> (c.z <==> c.r2 == 0))
    && (n == 9 ==> c.r0 == if c.z then 0 else LOCK)
    && (n == 10 ==> c.r2 != 0)
    && (n == 12 ==> c.r0 == 1)
  }

  /** The registers at each instruction of Release. */
  predicate ReleaseRegs(c: Cpu, n: nat) {
    && c.r1 == c.me && n < |RELEASE| && (c.owns || n <= 3) && (!c.owns && n > 0 ==> c.r2 != c.me)
    && (n <= 2 || 4 <= n <= 5 ==> c.r0 == LOCK)
    && (2 <= n <= 3 || 7 <= n <= 8 ==> (c.z <==> c.r2 == c.me))
    && (n == 3 ==> c.r0 == if c.z then LOCK else 2)
    && (n == 5 ==> c.r2 == 0)
    && (n == 8 && c.z ==> c.r0 == 0)
    && (n == 9 ==> c.r0 == if c.r2 == c.me then 0 else 2)
  }

  predicate Regs(c: Cpu) {
    match c.pc
    case Outside => true
    case Acq(n) => AcquireRegs(c, n)
    case Rel(n) => ReleaseRegs(c, n)
  }

  /** What the lock word says about two CPUs. */
  predicate Pair(c: Cpu, d: Cpu, lock: int) {
    && !(Holds(c) && Holds(d))
    && (Reverting(c) ==> Holds(d) && c.r2 == d.me)
    && (Reverting(d) ==> Holds(c) && d.r2 == c.me)
    && (!Holds(c) && !Holds(d) ==> lock == 0)
    && (Holds(c) ==> if Reverting(d) then lock == d.me || lock == 0 else lock == c.me)
    && (Holds(d) ==> if Reverting(c) then lock == c.me || lock == 0 else lock == d.me)
  }

  predicate Marks(c: Cpu, d: Cpu) { c.me != 0 && d.me != 0 && c.me != d.me }

  predicate Inv(s: Sys) {
    && s.arm7.me == ARM7 && s.arm9.me == ARM9
    && Regs(s.arm7) && Regs(s.arm9) && Pair(s.arm7, s.arm9, s.lock)
  }

  /** What a step must leave behind. */
  predicate Kept(c: Cpu, d: Cpu, lock: int, me: int) {
    Regs(c) && c.me == me && Pair(c, d, lock)
  }

  /** The swap of Acquire: takes a free lock, or starts the revert window. */
  lemma AcquireSwaps(c: Cpu, d: Cpu, lock: int)
    requires Marks(c, d) && Regs(c) && Pair(c, d, lock) && c.pc == Acq(5)
    ensures var p := Act(Step, c, lock); Kept(p.0, d, p.1, c.me)
  {
    assert ACQUIRE[5] == SwpR2;
  }

  /** The second swap of Acquire restores the owner's mark. */
  lemma AcquireReverts(c: Cpu, d: Cpu, lock: int)
    requires Marks(c, d) && Regs(c) && Pair(c, d, lock) && c.pc == Acq(10)
    ensures var p := Act(Step, c, lock); Kept(p.0, d, p.1, c.me) && p.1 == d.me
  {
    assert ACQUIRE[10] == SwpR2;
  }

  /** The other instructions of Acquire leave the lock word alone. */
  lemma AcquireQuiet(c: Cpu, d: Cpu, lock: int)
    requires Marks(c, d) && Regs(c) && Pair(c, d, lock) && c.pc.Acq? && c.pc.n != 5 && c.pc.n != 10
    ensures var p := Act(Step, c, lock);
            Regs(p.0) && p.0.me == c.me && p.1 == lock &&
            Holds(p.0) == Holds(c) && Reverting(p.0) == Reverting(c) && (Reverting(c) ==> p.0.r2 == c.r2)
  {
    hide Pair;
    var n := c.pc.n;
    assert ACQUIRE[n] != SwpR2;
  }

  lemma ReleaseSwaps(c: Cpu, d: Cpu, lock: int)
    requires Marks(c, d) && Regs(c) && Pair(c, d, lock) && c.pc == Rel(5)
    ensures var p := Act(Step, c, lock); Kept(p.0, d, p.1, c.me)
  {
    assert RELEASE[5] == SwpR2;
  }

  lemma ReleaseQuiet(c: Cpu, d: Cpu, lock: int)
    requires Marks(c, d) && Regs(c) && Pair(c, d, lock) && c.pc.Rel? && c.pc.n != 5
    ensures var p := Act(Step, c, lock);
            Regs(p.0) && p.0.me == c.me && p.1 == lock &&
            Holds(p.0) == Holds(c) && !Reverting(p.0) && !Reverting(c)
  {
    assert !c.owns ==> lock != c.me;
    hide Pair;
    assert RELEASE[c.pc.n] != SwpR2;
  }

  /** Every action of one CPU keeps the pair invariant, whatever the other one
      is in the middle of. */
  lemma ActKeeps(a: Action, c: Cpu, d: Cpu, lock: int)
    requires Marks(c, d) && Regs(c) && Pair(c, d, lock) && Polite(a, c)
    ensures var p := Act(a, c, lock);
            Regs(p.0) && p.0.me == c.me && Pair(p.0, d, p.1)
  {
    if a.Step? && !c.pc.Outside? {
      hide Act, Regs;
      match c.pc
      case Acq(n) =>
        if n == 5 {
          AcquireSwaps(c, d, lock);
        } else if n == 10 {
          AcquireReverts(c, d, lock);
        } else {
          AcquireQuiet(c, d, lock);
        }
      case Rel(n) =>
        if n == 5 {
          ReleaseSwaps(c, d, lock);
        } else {
          ReleaseQuiet(c, d, lock);
        }
    }
  }

  lemma {:induction false} RunKeeps(s: Sys, turns: seq<Turn>)
    requires Boot(s) && Disciplined(s, turns)
    ensures Inv(Run(s, turns))
  {
    if |turns| > 0 {
      var prev, t := Run(s, turns[..|turns| - 1]), turns[|turns| - 1];
      RunKeeps(s, turns[..|turns| - 1]);
      hide Regs, Act;
      match t
      case On7(a) => ActKeeps(a, prev.arm7, prev.arm9, prev.lock);
      case On9(a) =>
        PairSwaps(prev.arm7, prev.arm9, prev.lock);
        ActKeeps(a, prev.arm9, prev.arm7, prev.lock);
        var p := Act(a, prev.arm9, prev.lock);
        PairSwaps(p.0, prev.arm7, p.1);
    }
  }

  lemma PairSwaps(c: Cpu, d: Cpu, lock: int)
    ensures Pair(c, d, lock) <==> Pair(d, c, lock)
  {}

  /** A memory access of Release reads a foreign value exactly when the caller does
      not own the lock, or the other CPU is between its swap and its revert. */
  lemma ReleaseReads(c: Cpu, d: Cpu, lock: int)
    requires Marks(c, d) && Regs(c) && Pair(c, d, lock) && (c.pc == Rel(0) || c.pc == Rel(5))
    ensures Act(Step, c, lock).0.r2 != c.me <==> !c.owns || Reverting(d)
  {
    assert RELEASE[0] == LdrR2 && RELEASE[5] == SwpR2;
  }

  /** The swap of Acquire succeeds exactly when nobody holds the lock; it never
      finds the CPU's own mark. */
  lemma AcquireReads(c: Cpu, d: Cpu, lock: int)
    requires Marks(c, d) && Regs(c) && Pair(c, d, lock) && c.pc == Acq(5)
    ensures var p := Act(Step, c, lock);
            (p.0.r2 == 0 <==> !Holds(d)) && p.0.r2 != c.me && (Holds(p.0) <==> !Holds(d))
  {
    assert ACQUIRE[5] == SwpR2;
  }

  /** Release hands out 2 only for such a reading, in every interleaving. */
  lemma ReleaseContended(s: Sys, turns: seq<Turn>)
    requires Boot(s) && Disciplined(s, turns)
    ensures var r := Run(s, turns);
            && (r.arm7.pc == Rel(0) || r.arm7.pc == Rel(5) ==>
                  (Act(Step, r.arm7, r.lock).0.r2 != ARM7 <==> !r.arm7.owns || Reverting(r.arm9)))
            && (r.arm9.pc == Rel(0) || r.arm9.pc == Rel(5) ==>
                  (Act(Step, r.arm9, r.lock).0.r2 != ARM9 <==> !r.arm9.owns || Reverting(r.arm7)))
            && (r.arm7.pc == Rel(9) ==> (r.arm7.r0 == 2 <==> r.arm7.r2 != ARM7))
            && (r.arm9.pc == Rel(9) ==> (r.arm9.r0 == 2 <==> r.arm9.r2 != ARM9))
            && (r.arm7.pc == Rel(3) && !r.arm7.z ==> r.arm7.r0 == 2 && r.arm7.r2 != ARM7)
            && (r.arm9.pc == Rel(3) && !r.arm9.z ==> r.arm9.r0 == 2 && r.arm9.r2 != ARM9)
  {
    RunKeeps(s, turns);
    var r := Run(s, turns);
    hide Act, Run;
    PairSwaps(r.arm7, r.arm9, r.lock);
    if r.arm7.pc == Rel(0) || r.arm7.pc == Rel(5) {
      ReleaseReads(r.arm7, r.arm9, r.lock);
    }
    if r.arm9.pc == Rel(0) || r.arm9.pc == Rel(5) {
      ReleaseReads(r.arm9, r.arm7, r.lock);
    }
  }

  // What a Release that has returned 2 had seen.

  function Side(s: Sys, seven: bool): (c: Cpu) { if seven then s.arm7 else s.arm9 }

  /** `pc` lies behind `at` in the same routine. */
  predicate Later(pc: Pc, at: Pc) {
    (pc.Acq? && at.Acq? && at.n < pc.n) || (pc.Rel? && at.Rel? && at.n < pc.n)
  }

  /** Turn `k` was the CPU's instruction `at` in the call that it is in the middle
      of, and it has not left that call since. */
  ghost predicate OwnRead(s: Sys, turns: seq<Turn>, k: nat, seven: bool, at: Pc) {
    && k < |turns| && turns[k] == (if seven then On7(Step) else On9(Step))
    && Side(Run(s, turns[..k]), seven).pc == at
    && forall m :: k < m <= |turns| ==> Later(Side(Run(s, turns[..m]), seven).pc, at)
  }

  /** What that access read, and why. */
  ghost predicate Explains(s: Sys, turns: seq<Turn>, k: nat, seven: bool, p: nat) {
    && OwnRead(s, turns, k, seven, Rel(p))
    && var c, b := Side(Run(s, turns), seven), Run(s, turns[..k]);
       c.r2 != c.me <==> !c.owns || Reverting(Side(b, !seven))
  }

  /** Where Release still has its last reading in r2. */
  predicate HasRead(c: Cpu, p: nat) {
    c.pc.Rel? && ((p == 0 && 1 <= c.pc.n <= 3) || (p == 5 && 6 <= c.pc.n))
  }

  lemma OwnReadGrows(s: Sys, turns: seq<Turn>, k: nat, seven: bool, at: Pc)
    requires |turns| > 0 && OwnRead(s, turns[..|turns| - 1], k, seven, at)
    requires Later(Side(Run(s, turns), seven).pc, at)
    ensures OwnRead(s, turns, k, seven, at) && turns[..|turns| - 1][..k] == turns[..k]
  {
    hide Run, Side, Later;
    var before := turns[..|turns| - 1];
    assert before[..k] == turns[..k];
    forall m | k < m <= |turns|
      ensures Later(Side(Run(s, turns[..m]), seven).pc, at)
    {
      if m < |turns| {
        assert before[..m] == turns[..m];
      } else {
        assert turns[..m] == turns;
      }
    }
  }

  lemma FreshRead(s: Sys, turns: seq<Turn>, seven: bool, at: Pc)
    requires |turns| > 0 && turns[|turns| - 1] == (if seven then On7(Step) else On9(Step))
    requires Side(Run(s, turns[..|turns| - 1]), seven).pc == at && Later(Side(Run(s, turns), seven).pc, at)
    ensures OwnRead(s, turns, |turns| - 1, seven, at)
  {
    hide Run, Side, Later;
    assert turns[..|turns|] == turns;
  }

  /** A step of Release that is no access keeps the reading. */
  lemma QuietReads(c: Cpu, lock: int)
    requires Regs(c) && c.pc.Rel? && c.pc.n != 0 && c.pc.n != 5
    ensures var r := Act(Step, c, lock).0;
            (r.pc == Rel(c.pc.n + 1) && r.owns == c.owns && (c.pc.n != 4 ==> r.r2 == c.r2)) || r.pc.Outside?
  {
    assert RELEASE[c.pc.n] != SwpR2 && RELEASE[c.pc.n] != LdrR2;
    assert c.pc.n != 4 ==> RELEASE[c.pc.n] != MovR2Zero && RELEASE[c.pc.n] != MovR2R1;
  }

  lemma AccessReads(c: Cpu, lock: int)
    requires Regs(c) && (c.pc == Rel(0) || c.pc == Rel(5))
    ensures var r := Act(Step, c, lock).0; r.pc == Rel(c.pc.n + 1) && r.owns == c.owns
  {
    assert RELEASE[0] == LdrR2 && RELEASE[5] == SwpR2;
  }

  lemma AcquireStays(c: Cpu, lock: int)
    requires c.pc.Acq?
    ensures !Act(Step, c, lock).0.pc.Rel?
  {}

  /** One action: a last reading is kept, or made now. */
  lemma ActReads(a: Action, c: Cpu, d: Cpu, lock: int, p: nat)
    requires Marks(c, d) && Regs(c) && Pair(c, d, lock) && Polite(a, c) && HasRead(Act(a, c, lock).0, p)
    ensures var r := Act(a, c, lock).0;
            && r.me == c.me && r.owns == c.owns
            && (if HasRead(c, p) then r.r2 == c.r2
                else c.pc == Rel(p) && a.Step? && (r.r2 != r.me <==> !r.owns || Reverting(d)))
  {
    ActKeeps(a, c, d, lock);
    if a.Step? {
      match c.pc
      case Outside =>
      case Acq(n) => AcquireStays(c, lock);
      case Rel(n) =>
        if n == 0 || n == 5 {
          ReleaseReads(c, d, lock);
          AccessReads(c, lock);
        } else {
          QuietReads(c, lock);
        }
        hide Act, Pair, Regs;
    }
  }

  /** One turn, as seen from one side. */
  lemma TurnReads(prev: Sys, t: Turn, seven: bool, p: nat)
    requires Inv(prev) && Polite(t.a, if t.On7? then prev.arm7 else prev.arm9)
    requires HasRead(Side(Next(prev, t), seven), p)
    ensures var c, r := Side(prev, seven), Side(Next(prev, t), seven);
            && r.me == c.me && r.owns == c.owns
            && (if HasRead(c, p) then r.r2 == c.r2
                else c.pc == Rel(p) && t == (if seven then On7(Step) else On9(Step)) &&
                     (r.r2 != r.me <==> !r.owns || Reverting(Side(prev, !seven))))
  {
    PairSwaps(prev.arm7, prev.arm9, prev.lock);
    hide Act, Pair, Regs, Reverting, HasRead;
    if t.On7? == seven {
      ActReads(t.a, Side(prev, seven), Side(prev, !seven), prev.lock, p);
    }
  }

  lemma {:induction false} LastReading(s: Sys, turns: seq<Turn>, seven: bool, p: nat)
    requires Boot(s) && Disciplined(s, turns) && HasRead(Side(Run(s, turns), seven), p)
    ensures exists k: nat :: Explains(s, turns, k, seven, p)
  {
    hide Next, Inv, Reverting;
    if |turns| > 0 {
      var before, t := turns[..|turns| - 1], turns[|turns| - 1];
      RunKeeps(s, before);
      var prev := Run(s, before);
      TurnReads(prev, t, seven, p);
      if HasRead(Side(prev, seven), p) {
        LastReading(s, before, seven, p);
        var k: nat :| Explains(s, before, k, seven, p);
        OwnReadGrows(s, turns, k, seven, Rel(p));
        assert Explains(s, turns, k, seven, p);
      } else {
        FreshRead(s, turns, seven, Rel(p));
        assert Explains(s, turns, |turns| - 1, seven, p);
      }
    }
  }

  /** In every interleaving, the step with which a Release returns hands out 2 if
      and only if the caller did not own the lock or the other CPU was in its
      revert window at the very access of that Release that decided it. */
  lemma ReleaseReturns(s: Sys, turns: seq<Turn>, seven: bool)
    requires Boot(s) && Disciplined(s, turns)
    ensures var r := Run(s, turns);
            var c := Side(r, seven);
            var after := Act(Step, c, r.lock).0;
            c.pc.Rel? && after.pc.Outside? ==>
              exists k: nat, p: nat ::
                && OwnRead(s, turns, k, seven, Rel(p)) && (after.r0 == 0 || after.r0 == 2)
                && (after.r0 == 2 <==> !c.owns || Reverting(Side(Run(s, turns[..k]), !seven)))
  {
    RunKeeps(s, turns);
    var r := Run(s, turns);
    var c := Side(r, seven);
    var after := Act(Step, c, r.lock).0;
    if c.pc.Rel? && after.pc.Outside? {
      ReturnDecided(c, r.lock);
      var p := if c.pc.n == 3 then 0 else 5;
      hide Act, Regs, Reverting, Run, Inv;
      LastReading(s, turns, seven, p);
      var k: nat :| Explains(s, turns, k, seven, p);
      assert OwnRead(s, turns, k, seven, Rel(p));
    }
  }

  /** Release returns from two places, and what it returns is what it read. */
  lemma ReturnDecided(c: Cpu, lock: int)
    requires Regs(c) && c.pc.Rel? && Act(Step, c, lock).0.pc.Outside?
    ensures c.pc.n == 3 || c.pc.n == 9
    ensures var r0 := Act(Step, c, lock).0.r0; r0 == if c.r2 == c.me then 0 else 2
  {
    assert RELEASE[c.pc.n].Bx?;
  }

  // What an Acquire that has returned had seen.

  /** Acquire is past its access at `p`. */
  predicate Decided(c: Cpu, p: nat) {
    c.pc.Acq? && ((p == 0 && 1 <= c.pc.n <= 3) || (p == 5 && 6 <= c.pc.n <= 12))
  }

  /** It found the lock free. */
  predicate FoundFree(c: Cpu) { c.pc.Acq? && c.pc.n <= 9 && c.r2 == 0 }

  ghost predicate Decides(s: Sys, turns: seq<Turn>, k: nat, seven: bool, p: nat) {
    && OwnRead(s, turns, k, seven, Acq(p))
    && (FoundFree(Side(Run(s, turns), seven)) <==> !Holds(Side(Run(s, turns[..k]), !seven)))
  }

  /** An access of Acquire finds the lock free if and only if the other CPU does not
      hold it. */
  lemma AcquireLooks(c: Cpu, d: Cpu, lock: int)
    requires Marks(c, d) && Regs(c) && Pair(c, d, lock) && (c.pc == Acq(0) || c.pc == Acq(5))
    ensures var r := Act(Step, c, lock).0; r.pc == Acq(c.pc.n + 1) && (FoundFree(r) <==> !Holds(d))
  {
    assert ACQUIRE[0] == LdrR2 && ACQUIRE[5] == SwpR2;
  }

  lemma QuietDecides(c: Cpu, lock: int)
    requires Regs(c) && c.pc.Acq? && c.pc.n != 0 && c.pc.n != 5
    ensures var r := Act(Step, c, lock).0;
            (r.pc == Acq(c.pc.n + 1) && (c.pc.n != 4 ==> FoundFree(r) == FoundFree(c))) || r.pc.Outside?
  {
    var n := c.pc.n;
    assert n != 10 ==> ACQUIRE[n] != SwpR2 && ACQUIRE[n] != LdrR2;
    assert n != 4 ==> ACQUIRE[n] != MovR2Zero && ACQUIRE[n] != MovR2R1;
    assert ACQUIRE[9] == Bx(Eq) && ACQUIRE[10] == SwpR2;
  }

  lemma ReleaseStays(c: Cpu, lock: int)
    requires c.pc.Rel?
    ensures !Act(Step, c, lock).0.pc.Acq?
  {}

  lemma ActDecides(a: Action, c: Cpu, d: Cpu, lock: int, p: nat)
    requires Marks(c, d) && Regs(c) && Pair(c, d, lock) && Polite(a, c) && Decided(Act(a, c, lock).0, p)
    ensures var r := Act(a, c, lock).0;
            if Decided(c, p) then FoundFree(r) == FoundFree(c)
            else c.pc == Acq(p) && a.Step? && (FoundFree(r) <==> !Holds(d))
  {
    if a.Step? {
      match c.pc
      case Outside =>
      case Rel(n) => ReleaseStays(c, lock);
      case Acq(n) =>
        if n == 0 || n == 5 {
          AcquireLooks(c, d, lock);
        } else {
          QuietDecides(c, lock);
        }
        hide Act, Pair, Regs, FoundFree;
    }
  }

  lemma TurnDecides(prev: Sys, t: Turn, seven: bool, p: nat)
    requires Inv(prev) && Polite(t.a, if t.On7? then prev.arm7 else prev.arm9)
    requires Decided(Side(Next(prev, t), seven), p)
    ensures var c, r := Side(prev, seven), Side(Next(prev, t), seven);
            if Decided(c, p) then FoundFree(r) == FoundFree(c)
            else c.pc == Acq(p) && t == (if seven then On7(Step) else On9(Step)) &&
                 (FoundFree(r) <==> !Holds(Side(prev, !seven)))
  {
    PairSwaps(prev.arm7, prev.arm9, prev.lock);
    hide Act, Pair, Regs, Holds, Decided, FoundFree;
    if t.On7? == seven {
      ActDecides(t.a, Side(prev, seven), Side(prev, !seven), prev.lock, p);
    }
  }

  lemma {:induction false} LastLook(s: Sys, turns: seq<Turn>, seven: bool, p: nat)
    requires Boot(s) && Disciplined(s, turns) && Decided(Side(Run(s, turns), seven), p)
    ensures exists k: nat :: Decides(s, turns, k, seven, p)
  {
    hide Next, Inv, Holds, FoundFree;
    if |turns| > 0 {
      var before, t := turns[..|turns| - 1], turns[|turns| - 1];
      RunKeeps(s, before);
      var prev := Run(s, before);
      TurnDecides(prev, t, seven, p);
      if Decided(Side(prev, seven), p) {
        LastLook(s, before, seven, p);
        var k: nat :| Decides(s, before, k, seven, p);
        OwnReadGrows(s, turns, k, seven, Acq(p));
        assert Decides(s, turns, k, seven, p);
      } else {
        FreshRead(s, turns, seven, Acq(p));
        assert Decides(s, turns, |turns| - 1, seven, p);
      }
    }
  }

  /** Acquire returns from three places, and what it returns is what it found. */
  lemma AcquireDecided(c: Cpu, lock: int)
    requires Regs(c) && c.pc.Acq? && Act(Step, c, lock).0.pc.Outside?
    ensures c.pc.n == 3 || c.pc.n == 9 || c.pc.n == 12
    ensures var r0 := Act(Step, c, lock).0.r0; r0 == if FoundFree(c) then 0 else 1
  {
    assert ACQUIRE[c.pc.n].Bx?;
  }

  /** In every interleaving in which no owner calls Acquire, the step with which an
      Acquire returns hands out 0 or 1, and 0 if and only if the other CPU did not
      hold the lock at the very access of that Acquire that decided it. */
  lemma AcquireReturns(s: Sys, turns: seq<Turn>, seven: bool)
    requires Boot(s) && Disciplined(s, turns)
    ensures var r := Run(s, turns);
            var c := Side(r, seven);
            var after := Act(Step, c, r.lock).0;
            c.pc.Acq? && after.pc.Outside? ==>
              exists k: nat, p: nat ::
                && OwnRead(s, turns, k, seven, Acq(p)) && (after.r0 == 0 || after.r0 == 1)
                && (after.r0 == 0 <==> !Holds(Side(Run(s, turns[..k]), !seven)))
  {
    RunKeeps(s, turns);
    var r := Run(s, turns);
    var c := Side(r, seven);
    var after := Act(Step, c, r.lock).0;
    if c.pc.Acq? && after.pc.Outside? {
      AcquireDecided(c, r.lock);
      var p := if c.pc.n == 3 then 0 else 5;
      hide Act, Regs, Holds, Run, Inv, FoundFree;
      LastLook(s, turns, seven, p);
      var k: nat :| Decides(s, turns, k, seven, p);
      assert OwnRead(s, turns, k, seven, Acq(p));
    }
  }

  /** `k` instructions of one CPU with nobody else running. */
  function Alone(c: Cpu, lock: int, k: nat): (r: (Cpu, int))
    decreases k
  {
    if k == 0 then (c, lock)
    else var p := Act(Step, c, lock); Alone(p.0, p.1, k - 1)
  }

  /** A Release that nothing disturbs, at any of its instructions. */
  predicate Undisturbed(c: Cpu, lock: int) {
    && c.me != 0 && Regs(c) && c.pc.Rel? && c.owns
    && lock == (if c.pc.n <= 5 then c.me else 0)
    && (c.pc.n in {1, 2, 3} || c.pc.n >= 6 ==> c.r2 == c.me)
  }

  predicate Released(c: Cpu, lock: int) {
    c.pc.Outside? && !c.owns && c.r0 == 0 && lock == 0
  }

  lemma UndisturbedStep(c: Cpu, lock: int)
    requires Undisturbed(c, lock)
    ensures var p := Act(Step, c, lock);
            if c.pc.n == 9 then Released(p.0, p.1)
            else Undisturbed(p.0, p.1) && p.0.pc == Rel(c.pc.n + 1)
  {
    if c.pc.n == 5 {
      assert RELEASE[5] == SwpR2;
    } else {
      assert RELEASE[c.pc.n] != SwpR2;
    }
  }

  lemma {:induction false} UndisturbedRun(c: Cpu, lock: int)
    requires Undisturbed(c, lock)
    ensures var p := Alone(c, lock, |RELEASE| - c.pc.n); Released(p.0, p.1)
    decreases |RELEASE| - c.pc.n
  {
    UndisturbedStep(c, lock);
    hide Act, Regs;
    var p := Act(Step, c, lock);
    if c.pc.n == 9 {
      assert Alone(c, lock, 1) == Alone(p.0, p.1, 0);
    } else {
      UndisturbedRun(p.0, p.1);
    }
  }

  /** Once the other CPU is not reverting, an owner's Release returns 0 and
      frees the lock: the retry that wifi_shared.h asks for gets through. */
  lemma ReleaseAlone(c: Cpu, d: Cpu, lock: int)
    requires Marks(c, d) && Regs(c) && Pair(c, d, lock) && c.pc.Outside? && c.owns && !Reverting(d)
    ensures var q := Act(CallRelease, c, lock);
            var p := Alone(q.0, q.1, |RELEASE|);
            Released(p.0, p.1)
  {
    hide Alone;
    var q := Act(CallRelease, c, lock);
    UndisturbedRun(q.0, q.1);
  }

  /** An Acquire of a free lock that nothing disturbs, at any of its instructions. */
  predicate Unhindered(c: Cpu, lock: int) {
    && c.me != 0 && Regs(c) && c.pc.Acq? && c.pc.n <= 9
    && lock == (if c.pc.n <= 5 then 0 else c.me)
    && (1 <= c.pc.n <= 4 || c.pc.n >= 6 ==> c.r2 == 0)
  }

  predicate Acquired(c: Cpu, lock: int) {
    c.pc.Outside? && c.owns && c.r0 == 0 && lock == c.me
  }

  lemma UnhinderedStep(c: Cpu, lock: int)
    requires Unhindered(c, lock)
    ensures var p := Act(Step, c, lock);
            if c.pc.n == 9 then Acquired(p.0, p.1)
            else Unhindered(p.0, p.1) && p.0.pc == Acq(c.pc.n + 1)
  {
    if c.pc.n == 5 {
      assert ACQUIRE[5] == SwpR2;
    } else {
      assert ACQUIRE[c.pc.n] != SwpR2;
    }
  }

  lemma {:induction false} UnhinderedRun(c: Cpu, lock: int)
    requires Unhindered(c, lock)
    ensures var p := Alone(c, lock, 10 - c.pc.n); Acquired(p.0, p.1)
    decreases 10 - c.pc.n
  {
    UnhinderedStep(c, lock);
    hide Act, Regs;
    var p := Act(Step, c, lock);
    if c.pc.n == 9 {
      assert Alone(c, lock, 1) == Alone(p.0, p.1, 0);
    } else {
      UnhinderedRun(p.0, p.1);
    }
  }

  /** While the other CPU does not hold the lock, Acquire gets it in ten
      instructions. */
  lemma AcquireAlone(c: Cpu, d: Cpu, lock: int)
    requires Marks(c, d) && Pair(c, d, lock) && c.pc.Outside? && !c.owns && !Holds(d)
    ensures var q := Act(CallAcquire, c, lock);
            var p := Alone(q.0, q.1, 10);
            Acquired(p.0, p.1) && p.0.me == c.me
  {
    var q := Act(CallAcquire, c, lock);
    assert Unhindered(q.0, q.1);
    hide Act, Regs, Pair;
    UnhinderedRun(q.0, q.1);
    AloneMe(q.0, q.1, 10);
    assert q.0.me == c.me by { CallMe(c, lock); }
  }

  lemma CallMe(c: Cpu, lock: int)
    ensures Act(CallAcquire, c, lock).0.me == c.me
  {}

  lemma {:induction false} AloneMe(c: Cpu, lock: int, k: nat)
    ensures Alone(c, lock, k).0.me == c.me
    decreases k
  {
    if k > 0 {
      SameMe(c, lock);
      hide Act;
      AloneMe(Act(Step, c, lock).0, Act(Step, c, lock).1, k - 1);
    }
  }

  /** In every interleaving the swap of an Acquire takes the lock exactly when
      the other CPU does not hold it; an Acquire begun while the other CPU does not
      hold the lock, and left undisturbed, gets it; and a Release begun while the
      other CPU is not reverting, and left undisturbed, frees it. */
  lemma LockProgress(s: Sys, turns: seq<Turn>)
    requires Boot(s) && Disciplined(s, turns)
    ensures var r := Run(s, turns);
            && (r.arm7.pc == Acq(5) ==> (Holds(Act(Step, r.arm7, r.lock).0) <==> !Holds(r.arm9)))
            && (r.arm9.pc == Acq(5) ==> (Holds(Act(Step, r.arm9, r.lock).0) <==> !Holds(r.arm7)))
            && (r.arm7.pc.Outside? && !r.arm7.owns && !Holds(r.arm9) ==>
                  var q := Act(CallAcquire, r.arm7, r.lock);
                  var p := Alone(q.0, q.1, 10);
                  Acquired(p.0, p.1) && p.1 == ARM7)
            && (r.arm9.pc.Outside? && !r.arm9.owns && !Holds(r.arm7) ==>
                  var q := Act(CallAcquire, r.arm9, r.lock);
                  var p := Alone(q.0, q.1, 10);
                  Acquired(p.0, p.1) && p.1 == ARM9)
            && (r.arm7.pc.Outside? && r.arm7.owns && !Reverting(r.arm9) ==>
                  var q := Act(CallRelease, r.arm7, r.lock);
                  var p := Alone(q.0, q.1, |RELEASE|);
                  Released(p.0, p.1))
            && (r.arm9.pc.Outside? && r.arm9.owns && !Reverting(r.arm7) ==>
                  var q := Act(CallRelease, r.arm9, r.lock);
                  var p := Alone(q.0, q.1, |RELEASE|);
                  Released(p.0, p.1))
  {
    RunKeeps(s, turns);
    var r := Run(s, turns);
    hide Act, Run, Alone, Released;
    PairSwaps(r.arm7, r.arm9, r.lock);
    if r.arm7.pc.Outside? && !r.arm7.owns && !Holds(r.arm9) {
      AcquireAlone(r.arm7, r.arm9, r.lock);
    }
    if r.arm9.pc.Outside? && !r.arm9.owns && !Holds(r.arm7) {
      AcquireAlone(r.arm9, r.arm7, r.lock);
    }
    if r.arm7.pc == Acq(5) {
      AcquireReads(r.arm7, r.arm9, r.lock);
    }
    if r.arm9.pc == Acq(5) {
      AcquireReads(r.arm9, r.arm7, r.lock);
    }
    if r.arm7.pc.Outside? && r.arm7.owns && !Reverting(r.arm9) {
      ReleaseAlone(r.arm7, r.arm9, r.lock);
    }
    if r.arm9.pc.Outside? && r.arm9.owns && !Reverting(r.arm7) {
      ReleaseAlone(r.arm9, r.arm7, r.lock);
    }
  }

  // Any calls at all.

  /** Acquire has seen the lock free and has not swapped yet. */
  predicate Passed(c: Cpu) {
    c.pc.Acq? && ((1 <= c.pc.n <= 3 && c.r2 == 0) || 4 <= c.pc.n <= 5)
  }

  /** Release has seen its own mark and has not swapped yet. */
  predicate Cleared(c: Cpu) {
    c.pc.Rel? && ((1 <= c.pc.n <= 3 && c.r2 == c.me) || 4 <= c.pc.n <= 5)
  }

  predicate LooseAcquire(c: Cpu, n: nat) {
    && c.r1 == c.me && n < |ACQUIRE|
    && (n <= 2 || 4 <= n <= 8 || n == 10 ==> c.r0 == LOCK)
    && (2 <= n <= 3 || n == 7 ==> (c.z <==> c.r2 == 0))
    && (n == 3 ==> c.r0 == if c.z then LOCK else 1)
    && (n == 4 ==> c.r2 == 0) && (n == 5 ==> c.r2 == c.me)
    && (8 <= n <= 9 ==> (c.z <==> c.r2 == 0 || c.r2 == c.me))
    && (n == 9 ==> c.r0 == if c.z then 0 else LOCK)
    && (n == 10 ==> c.r2 != 0 && c.r2 != c.me)
    && (n == 12 ==> c.r0 == 1)
  }

  predicate LooseRelease(c: Cpu, n: nat) {
    && c.r1 == c.me && n < |RELEASE|
    && (n <= 2 || 4 <= n <= 7 ==> c.r0 == LOCK)
    && (2 <= n <= 3 || 7 <= n <= 8 ==> (c.z <==> c.r2 == c.me))
    && (n == 3 ==> c.r0 == if c.z then LOCK else 2)
    && (n == 4 ==> c.r2 == c.me) && (n == 5 ==> c.r2 == 0)
    && (n == 8 ==> c.r0 == if c.z then 0 else LOCK)
    && (n == 9 ==> c.r0 == if c.r2 == c.me then 0 else 2)
  }

  predicate LooseRegs(c: Cpu) {
    match c.pc
    case Outside => true
    case Acq(n) => LooseAcquire(c, n)
    case Rel(n) => LooseRelease(c, n)
  }

  /** What the lock word says about `c` beside `d`. It may carry the mark of a CPU
      that does not hold it: one that acquired twice and released while the other
      was reverting. Then the other has not seen it free. */
  predicate Half(c: Cpu, d: Cpu, lock: int) {
    && (Reverting(c) ==> c.r2 == d.me && !Holds(c) && !Reverting(d) && (!Holds(d) ==> lock == 0))
    && (Holds(c) && !Reverting(d) ==> lock == c.me)
    && (!Holds(c) && !Holds(d) && !Reverting(c) && !Reverting(d) && lock == c.me ==> !Passed(d))
    && (!c.owns && Cleared(c) ==> lock == c.me && !Holds(d) && !Reverting(d))
    && (c.owns && Passed(c) ==> lock != d.me && !Passed(d))
  }

  predicate Loose(c: Cpu, d: Cpu, lock: int) {
    && !(Holds(c) && Holds(d)) && (lock == 0 || lock == c.me || lock == d.me)
    && Half(c, d, lock) && Half(d, c, lock)
  }

  predicate Okay(c: Cpu, d: Cpu, lock: int) {
    Marks(c, d) && LooseRegs(c) && Loose(c, d, lock)
  }

  predicate OkayAfter(c: Cpu, d: Cpu, p: (Cpu, int)) {
    LooseRegs(p.0) && p.0.me == c.me && Loose(p.0, d, p.1)
  }

  lemma LooseCall(a: Action, c: Cpu, d: Cpu, lock: int)
    requires Okay(c, d, lock) && !a.Step?
    ensures OkayAfter(c, d, Act(a, c, lock))
  {}

  /** The loads, and the swaps. */
  lemma LooseAccess(c: Cpu, d: Cpu, lock: int)
    requires Okay(c, d, lock)
    requires c.pc == Acq(0) || c.pc == Acq(5) || c.pc == Acq(10) || c.pc == Rel(0) || c.pc == Rel(5)
    ensures OkayAfter(c, d, Act(Step, c, lock))
  {
    assert ACQUIRE[0] == LdrR2 && ACQUIRE[5] == SwpR2 && ACQUIRE[10] == SwpR2;
    assert RELEASE[0] == LdrR2 && RELEASE[5] == SwpR2;
  }

  /** What matters to the other CPU. */
  predicate Alike(c: Cpu, r: Cpu) {
    && r.me == c.me && Holds(r) == Holds(c) && Reverting(r) == Reverting(c) && (Reverting(c) ==> r.r2 == c.r2)
    && (Passed(r) ==> Passed(c) && r.owns == c.owns) && (Cleared(r) ==> Cleared(c) && r.owns == c.owns)
  }

  lemma LooseAcquires(c: Cpu, lock: int)
    requires LooseRegs(c) && c.me != 0 && c.pc.Acq? && c.pc.n != 0 && c.pc.n != 5 && c.pc.n != 10
    ensures var p := Act(Step, c, lock); LooseRegs(p.0) && Alike(c, p.0) && p.1 == lock
  {
    assert ACQUIRE[c.pc.n] != SwpR2 && ACQUIRE[c.pc.n] != LdrR2;
  }

  lemma LooseReleases(c: Cpu, lock: int)
    requires LooseRegs(c) && c.me != 0 && c.pc.Rel? && c.pc.n != 0 && c.pc.n != 5
    ensures var p := Act(Step, c, lock); LooseRegs(p.0) && Alike(c, p.0) && p.1 == lock
  {
    assert RELEASE[c.pc.n] != SwpR2 && RELEASE[c.pc.n] != LdrR2;
  }

  lemma AlikeKeeps(c: Cpu, r: Cpu, d: Cpu, lock: int)
    requires Loose(c, d, lock) && Alike(c, r)
    ensures Loose(r, d, lock)
  {
    hide Holds, Reverting, Passed, Cleared;
  }

  lemma LooseStep(a: Action, c: Cpu, d: Cpu, lock: int)
    requires Okay(c, d, lock)
    ensures OkayAfter(c, d, Act(a, c, lock))
  {
    hide Act, Loose, LooseRegs, Alike;
    if !a.Step? {
      LooseCall(a, c, d, lock);
    } else {
      match c.pc
      case Outside => assert Act(Step, c, lock) == (c, lock) by { Nothing(c, lock); }
      case Acq(n) =>
        if n == 0 || n == 5 || n == 10 {
          LooseAccess(c, d, lock);
        } else {
          LooseAcquires(c, lock);
          AlikeKeeps(c, Act(Step, c, lock).0, d, lock);
          assert Act(Step, c, lock).0.me == c.me by { SameMe(c, lock); }
        }
      case Rel(n) =>
        if n == 0 || n == 5 {
          LooseAccess(c, d, lock);
        } else {
          LooseReleases(c, lock);
          AlikeKeeps(c, Act(Step, c, lock).0, d, lock);
          assert Act(Step, c, lock).0.me == c.me by { SameMe(c, lock); }
        }
    }
  }

  lemma Nothing(c: Cpu, lock: int)
    requires c.pc.Outside?
    ensures Act(Step, c, lock) == (c, lock)
  {}

  lemma SameMe(c: Cpu, lock: int)
    ensures Act(Step, c, lock).0.me == c.me
  {}

  lemma LooseSwaps(c: Cpu, d: Cpu, lock: int)
    ensures Loose(c, d, lock) <==> Loose(d, c, lock)
  {}

  predicate LooseInv(s: Sys) {
    && s.arm7.me == ARM7 && s.arm9.me == ARM9
    && LooseRegs(s.arm7) && LooseRegs(s.arm9) && Loose(s.arm7, s.arm9, s.lock)
  }

  lemma {:induction false} RunLoose(s: Sys, turns: seq<Turn>)
    requires Boot(s)
    ensures LooseInv(Run(s, turns))
  {
    if |turns| > 0 {
      var prev, t := Run(s, turns[..|turns| - 1]), turns[|turns| - 1];
      RunLoose(s, turns[..|turns| - 1]);
      hide LooseRegs, Loose, Act;
      match t
      case On7(a) => LooseStep(a, prev.arm7, prev.arm9, prev.lock);
      case On9(a) =>
        LooseSwaps(prev.arm7, prev.arm9, prev.lock);
        LooseStep(a, prev.arm9, prev.arm7, prev.lock);
        var p := Act(a, prev.arm9, prev.lock);
        LooseSwaps(p.0, prev.arm7, p.1);
    }
  }

  /** In every interleaving of any calls whatever, at most one CPU holds the lock. A
      CPU that was told 0 by Acquire, and not yet 0 by Release, does hold it unless
      its Release has passed the swap that gives the lock back. */
  lemma MutualExclusion(s: Sys, turns: seq<Turn>)
    requires Boot(s)
    ensures var r := Run(s, turns);
            && !(Holds(r.arm7) && Holds(r.arm9))
            && (r.arm7.owns ==> Holds(r.arm7) || (r.arm7.pc.Rel? && r.arm7.pc.n > 5))
            && (r.arm9.owns ==> Holds(r.arm9) || (r.arm9.pc.Rel? && r.arm9.pc.n > 5))
            && !(r.arm7.pc.Outside? && r.arm7.owns && r.arm9.pc.Outside? && r.arm9.owns)
  {
    hide Run, LooseRegs;
    RunLoose(s, turns);
  }
}
