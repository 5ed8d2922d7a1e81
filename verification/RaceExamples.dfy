/**
 Three interleavings played out, and the exact outcome of a lock racing a soft lock and racing a
 quick unlock.
 */
module RaceExamples {
  import opened Results
  import opened LockRaces
  import opened AnchorRaces
  import Session

  function Choose(call: Call): Choice {
    Choice(call, true, Session.Authorized, Session.Valid)
  }

  // `n` moves in a row by one thread, the first of them a call.
  function Burst(t: nat, call: Call, n: nat): (moves: seq<Move>)
    ensures |moves| == n
  {
    seq(n, i => Move(t, Choose(call)))
  }

  lemma {:induction false} RunConcat(start: System, a: seq<Move>, b: seq<Move>)
    ensures Run(start, a + b) == Run(Run(start, a), b)
  {
    if b == [] {
      assert a + b == a;
    } else {
      RunConcat(start, a, b[..|b| - 1]);
      assert (a + b)[..|a + b| - 1] == a + b[..|b| - 1];
    }
  }

  function Steps(sys: System, t: nat, call: Call, n: nat): System
    decreases n
  {
    if n == 0 then sys else Steps(Step(sys, Move(t, Choose(call))), t, call, n - 1)
  }

  lemma {:induction false} RunBurst(sys: System, t: nat, call: Call, n: nat)
    ensures Run(sys, Burst(t, call, n)) == Steps(sys, t, call, n)
    decreases n
  {
    if n > 0 {
      var m := Move(t, Choose(call));
      var next := Step(sys, m);
      assert [m][..0] == [];
      assert Run(sys, [m]) == Step(Run(sys, []), m) == next;
      RunConcat(sys, [m], Burst(t, call, n - 1));
      RunBurst(next, t, call, n - 1);
      assert Burst(t, call, n) == [m] + Burst(t, call, n - 1);
    }
  }

  const START := System(Shared(false, false, false, 0, false, false, 0, None, None), map[])

  function At(unlocked: bool, userKey: bool, retained: bool, epoch: nat, anchor: bool, unlockedAt: bool,
              guard: Option<nat>, busy: Option<nat>, pcs: map<nat, Pc>): System {
    System(Shared(unlocked, userKey, retained, epoch, anchor, unlockedAt, 0, guard, busy), pcs)
  }

  const OPENED := At(true, true, false, 0, true, true, None, None, map[0 := Idle])

  lemma Three(sys: System, t: nat, call: Call, n: nat)
    requires n >= 3
    ensures var m := Move(t, Choose(call)); Steps(sys, t, call, n) == Steps(Step(Step(Step(sys, m), m), m), t, call, n - 3)
  {
    hide Step;
    var m := Move(t, Choose(call));
    var one := Step(sys, m);
    var two := Step(one, m);
    assert Steps(sys, t, call, n) == Steps(one, t, call, n - 1);
    assert Steps(one, t, call, n - 1) == Steps(two, t, call, n - 2);
    assert Steps(two, t, call, n - 2) == Steps(Step(two, m), t, call, n - 3);
  }

  lemma MasterUnlock()
    ensures Steps(START, 0, CallUnlock, 6) == OPENED
  {
    Three(START, 0, CallUnlock, 6);
    Three(At(true, true, false, 0, false, false, None, None, map[0 := Unlocking(UnlockTime)]), 0, CallUnlock, 3);
  }

  // ----- a soft lock in the gap of a lock -----

  const IN_GAP := At(true, true, false, 1, false, false, None, None, map[0 := Idle, 1 := HardLocking(HardFlag, true)])

  lemma LockToGap()
    ensures Steps(OPENED, 1, CallLock, 6) == IN_GAP
  {
    Three(OPENED, 1, CallLock, 6);
    Three(At(true, true, false, 0, false, false, None, None, map[0 := Idle, 1 := Locking(LockStrikes)]), 1, CallLock, 3);
  }

  const MOVED := At(false, false, true, 1, false, false, None, None,
                    map[0 := Idle, 1 := HardLocking(HardFlag, true), 2 := Idle])

  lemma SoftLockInGap()
    ensures Steps(IN_GAP, 2, CallSoftLock, 6) == MOVED
  {
    Three(IN_GAP, 2, CallSoftLock, 6);
    var moving := At(true, true, false, 1, false, false, None, None,
                     map[0 := Idle, 1 := HardLocking(HardFlag, true), 2 := SoftLocking(SoftMove)]);
    Three(moving, 2, CallSoftLock, 3);
  }

  function GapMoves(): seq<Move> {
    Burst(0, CallUnlock, 6) + Burst(1, CallLock, 6) + Burst(2, CallSoftLock, 6) + Burst(1, CallLock, 2)
  }

  lemma LockEnds()
    ensures Steps(MOVED, 1, CallLock, 2)
         == At(false, false, true, 1, false, false, None, None, map[0 := Idle, 1 := Idle, 2 := Idle])
  {
    var m := Move(1, Choose(CallLock));
    assert Steps(MOVED, 1, CallLock, 2) == Step(Step(MOVED, m), m);
  }

  lemma GapPrefix()
    ensures Run(START, Burst(0, CallUnlock, 6) + Burst(1, CallLock, 6)) == IN_GAP
  {
    RunConcat(START, Burst(0, CallUnlock, 6), Burst(1, CallLock, 6));
    RunBurst(START, 0, CallUnlock, 6);
    MasterUnlock();
    RunBurst(OPENED, 1, CallLock, 6);
    LockToGap();
  }

  // A vault opened, locked, and locked softly meanwhile: at rest a key is retained, unanchored.
  lemma SoftLockInGapKeepsKey()
    ensures Fresh(START)
    ensures var sys := Run(START, GapMoves()); Quiet(sys) && sys.sh.retained && !sys.sh.anchor
  {
    var ab := Burst(0, CallUnlock, 6) + Burst(1, CallLock, 6);
    var c, d := Burst(2, CallSoftLock, 6), Burst(1, CallLock, 2);
    GapPrefix();
    RunConcat(START, ab, c);
    RunConcat(START, ab + c, d);
    RunBurst(IN_GAP, 2, CallSoftLock, 6);
    SoftLockInGap();
    RunBurst(MOVED, 1, CallLock, 2);
    LockEnds();
  }

  // ----- a restore in the window of a lock -----

  const SOFT := At(false, false, true, 0, true, false, None, None, map[0 := Idle])

  lemma SoftLockAlone()
    ensures Steps(OPENED, 0, CallSoftLock, 6) == SOFT
  {
    Three(OPENED, 0, CallSoftLock, 6);
    Three(At(true, true, false, 0, true, false, None, None, map[0 := SoftLocking(SoftMove)]), 0, CallSoftLock, 3);
  }

  const ANSWERED := At(false, false, true, 0, true, false, None, Some(2), map[0 := Idle, 2 := Prompting(QuickSample)])

  lemma PromptAnswered()
    ensures Steps(SOFT, 2, CallQuickUnlock, 3) == ANSWERED
  {
    Three(SOFT, 2, CallQuickUnlock, 3);
  }

  const IN_WINDOW := At(false, false, true, 1, false, false, Some(1), Some(2),
                        map[0 := Idle, 1 := HardLocking(HardClear, true), 2 := Prompting(QuickSample)])

  lemma LockToWindow()
    ensures Steps(ANSWERED, 1, CallLock, 5) == IN_WINDOW
  {
    Three(ANSWERED, 1, CallLock, 5);
    var locking := At(false, false, true, 0, false, false, None, Some(2),
                      map[0 := Idle, 1 := Locking(LockStrikes), 2 := Prompting(QuickSample)]);
    var m := Move(1, Choose(CallLock));
    assert Steps(locking, 1, CallLock, 2) == Step(Step(locking, m), m);
  }

  const READ := At(false, false, true, 1, false, false, Some(1), Some(2),
                   map[0 := Idle, 1 := HardLocking(HardClear, true), 2 := Prompting(QuickCommit(1))])

  const LOCKED := At(false, false, false, 1, false, false, None, Some(2),
                     map[0 := Idle, 1 := Idle, 2 := Prompting(QuickCommit(1))])

  lemma ReadThenLocked()
    ensures Steps(IN_WINDOW, 2, CallQuickUnlock, 2) == READ && Steps(READ, 1, CallLock, 3) == LOCKED
  {
    var m := Move(2, Choose(CallQuickUnlock));
    assert Steps(IN_WINDOW, 2, CallQuickUnlock, 2) == Step(Step(IN_WINDOW, m), m);
    Three(READ, 1, CallLock, 3);
  }

  lemma CommitAfterLock()
    ensures Steps(LOCKED, 2, CallQuickUnlock, 4)
         == At(true, true, false, 1, false, true, None, None, map[0 := Idle, 1 := Idle, 2 := Idle])
  {
    Three(LOCKED, 2, CallQuickUnlock, 4);
    var last := At(true, true, false, 1, false, false, None, Some(2), map[0 := Idle, 1 := Idle, 2 := Prompting(QuickTime)]);
    assert Steps(last, 2, CallQuickUnlock, 1) == Step(last, Move(2, Choose(CallQuickUnlock)));
  }

  function WindowMoves(): seq<Move> {
    Burst(0, CallUnlock, 6) + Burst(0, CallSoftLock, 6) + Burst(2, CallQuickUnlock, 3) + Burst(1, CallLock, 5)
    + Burst(2, CallQuickUnlock, 2) + Burst(1, CallLock, 3) + Burst(2, CallQuickUnlock, 4)
  }

  lemma WindowPrefix()
    ensures Run(START, Burst(0, CallUnlock, 6) + Burst(0, CallSoftLock, 6) + Burst(2, CallQuickUnlock, 3)) == ANSWERED
  {
    var a, b, c := Burst(0, CallUnlock, 6), Burst(0, CallSoftLock, 6), Burst(2, CallQuickUnlock, 3);
    RunConcat(START, a, b);
    RunConcat(START, a + b, c);
    RunBurst(START, 0, CallUnlock, 6);
    MasterUnlock();
    RunBurst(OPENED, 0, CallSoftLock, 6);
    SoftLockAlone();
    RunBurst(SOFT, 2, CallQuickUnlock, 3);
    PromptAnswered();
  }

  // A vault locked while an authorised quick unlock reads the slot: at rest it is unlocked
  // again, unanchored.
  lemma RestoreInWindowUnlocks()
    ensures Fresh(START)
    ensures var sys := Run(START, WindowMoves()); Quiet(sys) && sys.sh.unlocked && !sys.sh.anchor
  {
    var abc := Burst(0, CallUnlock, 6) + Burst(0, CallSoftLock, 6) + Burst(2, CallQuickUnlock, 3);
    var d, e := Burst(1, CallLock, 5), Burst(2, CallQuickUnlock, 2);
    var f, g := Burst(1, CallLock, 3), Burst(2, CallQuickUnlock, 4);
    WindowPrefix();
    RunConcat(START, abc, d);
    RunConcat(START, abc + d, e);
    RunConcat(START, abc + d + e, f);
    RunConcat(START, abc + d + e + f, g);
    RunBurst(ANSWERED, 1, CallLock, 5);
    LockToWindow();
    RunBurst(IN_WINDOW, 2, CallQuickUnlock, 2);
    RunBurst(READ, 1, CallLock, 3);
    ReadThenLocked();
    RunBurst(LOCKED, 2, CallQuickUnlock, 4);
    CommitAfterLock();
  }

  // ----- a lock inside an unlock -----

  const KEYED := At(false, true, false, 0, false, false, None, None, map[0 := Unlocking(UnlockSlot)])

  const CLEARED := At(false, false, false, 1, false, false, None, None, map[0 := Unlocking(UnlockSlot), 1 := Idle])

  lemma LockInsideUnlock()
    ensures Steps(KEYED, 1, CallLock, 8) == CLEARED
  {
    Three(KEYED, 1, CallLock, 8);
    Three(At(false, true, false, 0, false, false, None, None, map[0 := Unlocking(UnlockSlot), 1 := Locking(LockStrikes)]), 1, CallLock, 5);
    var flag := At(false, true, false, 1, false, false, None, None, map[0 := Unlocking(UnlockSlot), 1 := HardLocking(HardFlag, true)]);
    var m := Move(1, Choose(CallLock));
    assert Steps(flag, 1, CallLock, 2) == Step(Step(flag, m), m);
  }

  lemma UnlockEnds()
    ensures Steps(CLEARED, 0, CallUnlock, 5)
         == At(true, false, false, 1, true, true, None, None, map[0 := Idle, 1 := Idle])
  {
    Three(CLEARED, 0, CallUnlock, 5);
    var anchoring := At(true, false, false, 1, false, true, None, None, map[0 := Unlocking(UnlockAnchor), 1 := Idle]);
    var m := Move(0, Choose(CallUnlock));
    assert Steps(anchoring, 0, CallUnlock, 2) == Step(Step(anchoring, m), m);
  }

  function InsideMoves(): seq<Move> {
    Burst(0, CallUnlock, 1) + Burst(1, CallLock, 8) + Burst(0, CallUnlock, 5)
  }

  // An unlock that has written the key, a whole lock, and the rest of the unlock: at rest the
  // vault says it is unlocked and has no user key.
  lemma LockInsideUnlockLosesKey()
    ensures Fresh(START)
    ensures var sys := Run(START, InsideMoves()); Quiet(sys) && sys.sh.unlocked && !sys.sh.userKey
  {
    var a, b, c := Burst(0, CallUnlock, 1), Burst(1, CallLock, 8), Burst(0, CallUnlock, 5);
    RunConcat(START, a, b);
    RunConcat(START, a + b, c);
    RunBurst(START, 0, CallUnlock, 1);
    assert Steps(START, 0, CallUnlock, 1) == Step(START, Move(0, Choose(CallUnlock))) == KEYED;
    RunBurst(KEYED, 1, CallLock, 8);
    LockInsideUnlock();
    RunBurst(CLEARED, 0, CallUnlock, 5);
    UnlockEnds();
  }

  // ----- one lock racing one soft lock -----

  // Thread 0 runs lock(), thread 1 soft_lock(), each from its first write; quick unlock is usable.
  predicate RaceMove(m: Move) {
    m.thread < 2 && m.choice.call == NoCall && m.choice.usable
  }

  predicate RaceStart(sys: System) {
    sys.pcs == map[0 := Locking(LockTime), 1 := SoftLocking(SoftTime)]
    && sys.sh.unlocked && sys.sh.userKey && sys.sh.anchor && sys.sh.guard.None?
  }

  // Whether the soft lock's move came in the lock's gap.
  predicate MovedInGap(start: System, moves: seq<Move>) {
    moves != [] &&
    (MovedInGap(start, moves[..|moves| - 1]) || MovesInGap(Run(start, moves[..|moves| - 1]), moves[|moves| - 1]))
  }

  predicate BeforeClear(pc: Pc) {
    pc.Locking? || pc == HardLocking(HardWipe, true) || pc == HardLocking(HardClear, true)
  }

  predicate AfterClear(pc: Pc) {
    pc == HardLocking(HardFlag, true) || pc == HardLocking(HardKey, true) || pc == Idle
  }

  predicate BeforeMove(pc: Pc) {
    pc == SoftLocking(SoftTime) || pc == SoftLocking(SoftDecide) || pc == SoftLocking(SoftMove)
  }

  predicate AfterMove(pc: Pc) {
    pc == SoftLocking(SoftFlag) || pc == SoftLocking(SoftKey) || pc == Idle
  }

  predicate RaceInv(sys: System, moved: bool) {
    sys.pcs.Keys == {0, 1} &&
    var l, p, s := sys.pcs[0], sys.pcs[1], sys.sh;
    && (BeforeClear(l) || AfterClear(l)) && (BeforeMove(p) || AfterMove(p))
    && (s.guard == Some(0) <==> l == HardLocking(HardClear, true))
    && (s.guard == Some(1) <==> p == SoftLocking(SoftFlag) || p == SoftLocking(SoftKey))
    && (s.guard.None? || s.guard == Some(0) || s.guard == Some(1))
    && (s.anchor <==> l == Locking(LockTime) || l == Locking(LockAnchor))
    && (BeforeMove(p) ==> (s.userKey <==> l != Idle))
    && (moved ==> AfterClear(l) && AfterMove(p))
    && (AfterClear(l) ==> (s.retained <==> moved))
  }

  lemma LockRaceStep(sys: System, moved: bool, m: Move)
    requires RaceInv(sys, moved) && RaceMove(m) && m.thread == 0
    ensures RaceInv(Step(sys, m), moved) && !MovesInGap(sys, m)
  {
  }

  lemma SoftRaceStep(sys: System, moved: bool, m: Move)
    requires RaceInv(sys, moved) && RaceMove(m) && m.thread == 1
    ensures RaceInv(Step(sys, m), moved || MovesInGap(sys, m))
  {
  }

  lemma {:induction false} RaceKeepsInv(start: System, moves: seq<Move>)
    requires RaceStart(start) && forall i :: 0 <= i < |moves| ==> RaceMove(moves[i])
    ensures RaceInv(Run(start, moves), MovedInGap(start, moves))
  {
    if moves != [] {
      RaceKeepsInv(start, moves[..|moves| - 1]);
      var before, m := moves[..|moves| - 1], moves[|moves| - 1];
      if m.thread == 0 {
        LockRaceStep(Run(start, before), MovedInGap(start, before), m);
      } else {
        SoftRaceStep(Run(start, before), MovedInGap(start, before), m);
      }
    }
  }

  // However the two calls interleave, they end with no anchor, and with a key retained if and
  // only if the soft lock moved it in the gap.
  lemma LockAgainstSoftLock(start: System, moves: seq<Move>)
    requires RaceStart(start) && (forall i :: 0 <= i < |moves| ==> RaceMove(moves[i]))
    requires Quiet(Run(start, moves))
    ensures var s := Run(start, moves).sh; !s.anchor && (s.retained <==> MovedInGap(start, moves))
  {
    RaceKeepsInv(start, moves);
  }

  // ----- one lock racing one quick unlock -----

  // Thread 0 runs lock(), thread 1 an authorised quick unlock of a soft-locked vault.
  predicate RestoreMove(m: Move) {
    m.thread < 2 && m.choice.call == NoCall && m.choice.restore == Session.Valid
  }

  predicate RestoreStart(sys: System) {
    sys.pcs == map[0 := Locking(LockTime), 1 := Prompting(QuickSample)]
    && !sys.sh.unlocked && !sys.sh.userKey && sys.sh.retained && sys.sh.guard.None? && sys.sh.busy == Some(1)
  }

  // What has happened so far: the restore read the slot in the lock's window, put the user key
  // back after the lock had cleared it, set the unlocked flag after the lock had cleared that.
  datatype Marks = Marks(read: bool, key: bool, flag: bool)

  function Mark(sys: System, m: Move, k: Marks): Marks
    requires 0 in sys.pcs && 1 in sys.pcs
  {
    var l, p, s := sys.pcs[0], sys.pcs[1], sys.sh;
    Marks(
      k.read || ReadsInWindow(sys, m),
      k.key || (m.thread == 1 && p == Prompting(QuickCommit(s.epoch)) && s.guard.None? && l == Idle),
      k.flag || (m.thread == 1 && p == Prompting(QuickFlag) && (l == Idle || l == HardLocking(HardKey, true))))
  }

  lemma {:induction false} ThreadsStay(start: System, moves: seq<Move>, t: nat)
    requires t in start.pcs
    ensures t in Run(start, moves).pcs
  {
    if moves != [] {
      ThreadsStay(start, moves[..|moves| - 1], t);
    }
  }

  function MarksOf(start: System, moves: seq<Move>): Marks
    requires 0 in start.pcs && 1 in start.pcs
  {
    if moves == [] then Marks(false, false, false)
    else
      var before := moves[..|moves| - 1];
      ThreadsStay(start, before, 0);
      ThreadsStay(start, before, 1);
      Mark(Run(start, before), moves[|moves| - 1], MarksOf(start, before))
  }

  predicate InRestore(p: Pc) {
    p == Idle ||
    (p.Prompting? && match p.q
                     case QuickSample => true
                     case QuickRead(_) => true
                     case QuickCommit(_) => true
                     case QuickFlag => true
                     case QuickStrikes => true
                     case QuickTime => true
                     case _ => false)
  }

  predicate BeforeWipe(l: Pc) {
    l.Locking? || l == HardLocking(HardWipe, true)
  }

  predicate RestoreInv(sys: System, k: Marks) {
    sys.pcs.Keys == {0, 1} &&
    var l, p, s := sys.pcs[0], sys.pcs[1], sys.sh;
    && (BeforeClear(l) || AfterClear(l)) && InRestore(p)
    && (s.guard == Some(0) <==> l == HardLocking(HardClear, true))
    && (s.guard == Some(1) <==> p == Prompting(QuickFlag))
    && (s.guard.None? || s.guard == Some(0) || s.guard == Some(1))
    && (s.anchor ==> l == Locking(LockTime) || l == Locking(LockAnchor))
    && (s.retained <==> BeforeClear(l))
    && (p.Prompting? && (p.q.QuickRead? || p.q.QuickCommit?) ==> p.q.epoch <= s.epoch)
    && (!BeforeWipe(l) && (p == Prompting(QuickCommit(s.epoch)) || p == Prompting(QuickFlag)) ==> k.read)
    && (k.key ==> l == Idle && k.read) && (l == Idle ==> (s.userKey <==> k.key))
    && (k.flag ==> (l == Idle || l == HardLocking(HardKey, true)) && k.read)
    && (l == Idle || l == HardLocking(HardKey, true) ==> (s.unlocked <==> k.flag))
  }

  lemma LockRestoreStep(sys: System, k: Marks, m: Move)
    requires RestoreInv(sys, k) && RestoreMove(m) && m.thread == 0
    ensures RestoreInv(Step(sys, m), Mark(sys, m, k))
  {
  }

  // The restore up to its read, and from its commit on.
  predicate BeforeCommit(p: Pc) {
    p == Prompting(QuickSample) || (p.Prompting? && p.q.QuickRead?)
  }

  lemma QuickReadStep(sys: System, k: Marks, m: Move)
    requires RestoreInv(sys, k) && RestoreMove(m) && m.thread == 1 && BeforeCommit(sys.pcs[1])
    ensures RestoreInv(Step(sys, m), Mark(sys, m, k))
  {
  }

  lemma QuickWriteStep(sys: System, k: Marks, m: Move)
    requires RestoreInv(sys, k) && RestoreMove(m) && m.thread == 1 && !BeforeCommit(sys.pcs[1])
    ensures RestoreInv(Step(sys, m), Mark(sys, m, k))
  {
  }

  lemma QuickRestoreStep(sys: System, k: Marks, m: Move)
    requires RestoreInv(sys, k) && RestoreMove(m) && m.thread == 1
    ensures RestoreInv(Step(sys, m), Mark(sys, m, k))
  {
    hide Step;
    hide Mark;
    if BeforeCommit(sys.pcs[1]) {
      QuickReadStep(sys, k, m);
    } else {
      QuickWriteStep(sys, k, m);
    }
  }

  lemma {:induction false} RestoreKeepsInv(start: System, moves: seq<Move>)
    requires RestoreStart(start) && forall i :: 0 <= i < |moves| ==> RestoreMove(moves[i])
    ensures RestoreInv(Run(start, moves), MarksOf(start, moves))
  {
    if moves != [] {
      RestoreKeepsInv(start, moves[..|moves| - 1]);
      var before, m := moves[..|moves| - 1], moves[|moves| - 1];
      if m.thread == 0 {
        LockRestoreStep(Run(start, before), MarksOf(start, before), m);
      } else {
        QuickRestoreStep(Run(start, before), MarksOf(start, before), m);
      }
    }
  }

  // However the two calls interleave, nothing stays retained; the vault is open afterwards, or
  // holds its key, if and only if the restore's write came after the lock's own, and that takes
  // a read in the window.
  lemma LockAgainstQuickUnlock(start: System, moves: seq<Move>)
    requires RestoreStart(start) && (forall i :: 0 <= i < |moves| ==> RestoreMove(moves[i]))
    requires Quiet(Run(start, moves))
    ensures var s, k := Run(start, moves).sh, MarksOf(start, moves);
            && !s.anchor && !s.retained && (s.unlocked <==> k.flag) && (s.userKey <==> k.key)
            && (k.flag || k.key ==> k.read)
  {
    RestoreKeepsInv(start, moves);
  }
}
