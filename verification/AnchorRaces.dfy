/**
 When a key is left without a session anchor.

 The anchor is what the 12-hour ceiling is measured from, so a key in memory without one is
 never wiped by it. Under two interleavings the code leaves such a key. The runs in which every
 key is anchored, or about to be anchored or cleared, are exactly those that avoid both; a run
 whose vault calls are not interrupted is one of them.
 */
module AnchorRaces {
  import opened Results
  import opened LockRaces
  import Session

  // What a running call still has to do.
  datatype Duty = Cover | ClearSlot | ClearFlag | ClearKey

  // `Cover`: set the anchor, or wipe everything from the slot on. The other duties belong to a
  // lock() that has passed that point.
  predicate Does(d: Duty, pc: Pc) {
    match pc
    case Locking(l) => d == Cover && l == LockStrikes
    case HardLocking(h, inLock) =>
      inLock &&
      (match d
       case Cover => h == HardWipe
       case ClearSlot => h == HardClear
       case ClearFlag => h == HardClear || h == HardFlag
       case ClearKey => h == HardClear || h == HardFlag || h == HardKey)
    case Unlocking(u) => d == Cover && u != UnlockStrikes
    case _ => false
  }

  ghost predicate Anyone(sys: System, d: Duty) {
    exists t :: t in sys.pcs && Does(d, sys.pcs[t])
  }

  ghost predicate Covered(sys: System) {
    sys.sh.anchor || Anyone(sys, Cover)
  }

  predicate Holds(pc: Pc) {
    match pc
    case HardLocking(h, _) => h == HardClear
    case SoftLocking(p) => p == SoftFlag || p == SoftKey
    case Prompting(q) => q == StrikeClear || q == StaleClear || q == QuickFlag
    case Wiping(w) => w == WipeClear
    case _ => false
  }

  // The epoch a restore in flight has sampled.
  predicate SampledBy(pc: Pc, e: nat) {
    pc == Prompting(QuickRead(e)) || pc == Prompting(QuickCommit(e))
  }

  ghost predicate GuardInv(sys: System) {
    && (forall t :: t in sys.pcs && Holds(sys.pcs[t]) ==> sys.sh.guard == Some(t))
    && (forall t, e: nat :: t in sys.pcs && SampledBy(sys.pcs[t], e) ==> e <= sys.sh.epoch)
  }

  ghost predicate AnchorInv(sys: System) {
    && (sys.sh.retained ==> Covered(sys) || Anyone(sys, ClearSlot))
    && (sys.sh.unlocked ==> Covered(sys) || Anyone(sys, ClearFlag))
    && (sys.sh.userKey ==> Covered(sys) || Anyone(sys, ClearKey))
    && (forall t :: t in sys.pcs && sys.pcs[t] == Prompting(QuickCommit(sys.sh.epoch)) ==> Covered(sys))
    && (forall t :: t in sys.pcs && sys.pcs[t] == Prompting(QuickFlag) ==> Covered(sys))
  }

  // ----- the two interleavings -----

  // A soft lock moves the user key to the slot after a lock() has cleared the slot and before
  // it has cleared the user key.
  predicate MovesInGap(sys: System, m: Move) {
    && PcOf(sys, m.thread) == SoftLocking(SoftMove) && sys.sh.guard.None? && sys.sh.userKey
    && exists u :: u in sys.pcs && (sys.pcs[u] == HardLocking(HardFlag, true) || sys.pcs[u] == HardLocking(HardKey, true))
  }

  // A restore samples the epoch after a lock() has bumped it and reads a valid key before the
  // lock() has cleared the slot, so that the lock() will not abort it.
  predicate ReadsInWindow(sys: System, m: Move) {
    && PcOf(sys, m.thread) == Prompting(QuickRead(sys.sh.epoch)) && m.choice.restore == Session.Valid && sys.sh.retained
    && exists u :: u in sys.pcs && sys.pcs[u] == HardLocking(HardClear, true)
  }

  // Either of the two, with no anchor set and no unlock or further lock() about to make up for it.
  ghost predicate LosesAnchor(sys: System, m: Move) {
    !Covered(sys) && (MovesInGap(sys, m) || ReadsInWindow(sys, m))
  }

  ghost predicate Orderly(start: System, moves: seq<Move>) {
    moves == [] ||
    (var before, m := moves[..|moves| - 1], moves[|moves| - 1];
     Orderly(start, before) && !LosesAnchor(Run(start, before), m))
  }

  // ----- one step -----

  // The ways a step can put a key somewhere, lose a duty, or move a restore on.
  ghost predicate StepFacts(s: Shared, pc: Pc, r: (Shared, Pc)) {
    && (r.0.retained && !s.retained ==> pc == SoftLocking(SoftMove) && s.guard.None? && s.userKey)
    && (r.0.unlocked && !s.unlocked ==> Does(Cover, r.1) || pc == Prompting(QuickFlag))
    && (r.0.userKey && !s.userKey ==> Does(Cover, r.1) || pc == Prompting(QuickCommit(s.epoch)))
    && (s.anchor && !r.0.anchor ==> Does(Cover, r.1))
    && (Does(Cover, pc) && !Does(Cover, r.1) && !r.0.anchor ==> pc == HardLocking(HardWipe, true) && s.guard.None?)
    && (Does(ClearSlot, pc) && !Does(ClearSlot, r.1) ==> !r.0.retained)
    && (Does(ClearFlag, pc) && !Does(ClearFlag, r.1) ==> !r.0.unlocked)
    && (Does(ClearKey, pc) && !Does(ClearKey, r.1) ==> !r.0.userKey)
  }

  ghost predicate RestoreFacts(s: Shared, pc: Pc, t: nat, r: (Shared, Pc)) {
    && (r.0.epoch == s.epoch || (r.0.epoch == s.epoch + 1 && s.guard.None?))
    && (forall e: nat :: SampledBy(r.1, e) ==> e == r.0.epoch || SampledBy(pc, e))
    && (forall e: nat :: r.1 == Prompting(QuickCommit(e)) ==> pc == r.1 || (pc == Prompting(QuickRead(e)) && s.retained))
    && (r.1 == Prompting(QuickFlag) ==> pc == Prompting(QuickCommit(s.epoch)))
    && (Holds(r.1) ==> r.0.guard == Some(t))
    && (s.guard.Some? && s.guard != Some(t) ==> r.0.guard == s.guard)
  }

  lemma HardFacts(s: Shared, h: HardPoint, inLock: bool, t: nat)
    requires Holds(HardLocking(h, inLock)) ==> s.guard == Some(t)
    ensures var pc, r := HardLocking(h, inLock), AdvanceHard(s, h, inLock, t);
            StepFacts(s, pc, r) && RestoreFacts(s, pc, t, r)
  {
  }

  lemma SoftFacts(s: Shared, p: SoftPoint, t: nat, usable: bool)
    requires Holds(SoftLocking(p)) ==> s.guard == Some(t)
    ensures var pc, r := SoftLocking(p), AdvanceSoft(s, p, t, usable);
            StepFacts(s, pc, r) && RestoreFacts(s, pc, t, r)
  {
  }

  lemma QuickStepFacts(s: Shared, q: QuickPoint, t: nat, c: Choice)
    ensures StepFacts(s, Prompting(q), AdvanceQuick(s, q, t, c))
  {
  }

  predicate Restoring(q: QuickPoint) {
    q == QuickSample || q.QuickRead? || q.QuickCommit? || q == QuickFlag
  }

  lemma RestorePointFacts(s: Shared, q: QuickPoint, t: nat, c: Choice)
    requires Restoring(q) && (Holds(Prompting(q)) ==> s.guard == Some(t))
    ensures RestoreFacts(s, Prompting(q), t, AdvanceQuick(s, q, t, c))
  {
  }

  predicate Asking(q: QuickPoint) {
    q == QuickRecheck || q == QuickPrompt
  }

  lemma AskingPointFacts(s: Shared, q: QuickPoint, t: nat, c: Choice)
    requires Asking(q)
    ensures RestoreFacts(s, Prompting(q), t, AdvanceQuick(s, q, t, c))
  {
  }

  lemma EndingPointFacts(s: Shared, q: QuickPoint, t: nat, c: Choice)
    requires !Restoring(q) && !Asking(q) && (Holds(Prompting(q)) ==> s.guard == Some(t))
    ensures RestoreFacts(s, Prompting(q), t, AdvanceQuick(s, q, t, c))
  {
  }

  lemma QuickRestoreFacts(s: Shared, q: QuickPoint, t: nat, c: Choice)
    requires Holds(Prompting(q)) ==> s.guard == Some(t)
    ensures RestoreFacts(s, Prompting(q), t, AdvanceQuick(s, q, t, c))
  {
    hide RestoreFacts;
    hide AdvanceQuick;
    if Restoring(q) {
      RestorePointFacts(s, q, t, c);
    } else if Asking(q) {
      AskingPointFacts(s, q, t, c);
    } else {
      EndingPointFacts(s, q, t, c);
    }
  }

  lemma LockFacts(s: Shared, l: LockPoint, t: nat)
    ensures var pc, r := Locking(l), AdvanceLock(s, l); StepFacts(s, pc, r) && RestoreFacts(s, pc, t, r)
  {
  }

  lemma UnlockFacts(s: Shared, u: UnlockPoint, t: nat)
    ensures var pc, r := Unlocking(u), AdvanceUnlock(s, u); StepFacts(s, pc, r) && RestoreFacts(s, pc, t, r)
  {
  }

  lemma WipeFacts(s: Shared, w: WipePoint, t: nat)
    requires Holds(Wiping(w)) ==> s.guard == Some(t)
    ensures var pc, r := Wiping(w), AdvanceWipe(s, w, t); StepFacts(s, pc, r) && RestoreFacts(s, pc, t, r)
  {
  }

  lemma BeginFacts(s: Shared, call: Call, t: nat)
    ensures var pc, r := Idle, Begin(s, t, call); StepFacts(s, pc, r) && RestoreFacts(s, pc, t, r)
  {
  }

  lemma Facts(s: Shared, pc: Pc, t: nat, c: Choice)
    requires Holds(pc) ==> s.guard == Some(t)
    ensures StepFacts(s, pc, Advance(s, pc, t, c)) && RestoreFacts(s, pc, t, Advance(s, pc, t, c))
  {
    hide StepFacts;
    hide RestoreFacts;
    hide AdvanceHard;
    hide AdvanceSoft;
    hide AdvanceQuick;
    match pc {
      case Prompting(q) =>
        QuickStepFacts(s, q, t, c);
        QuickRestoreFacts(s, q, t, c);
      case HardLocking(h, inLock) => HardFacts(s, h, inLock, t);
      case SoftLocking(p) => SoftFacts(s, p, t, c.usable);
      case Locking(l) => LockFacts(s, l, t);
      case Unlocking(u) => UnlockFacts(s, u, t);
      case Wiping(w) => WipeFacts(s, w, t);
      case Idle => BeginFacts(s, c.call, t);
    }
  }

  // A duty is not lost unless its own thread performs it.
  lemma DutyKept(sys: System, m: Move, d: Duty)
    requires Anyone(sys, d) && (Does(d, PcOf(sys, m.thread)) ==> Does(d, PcOf(Step(sys, m), m.thread)))
    ensures Anyone(Step(sys, m), d)
  {
    var next := Step(sys, m);
    var u :| u in sys.pcs && Does(d, sys.pcs[u]);
    assert u in next.pcs && Does(d, next.pcs[u]);
  }

  lemma DutyTaken(sys: System, m: Move, d: Duty)
    requires Does(d, PcOf(Step(sys, m), m.thread))
    ensures Anyone(Step(sys, m), d)
  {
    assert m.thread in Step(sys, m).pcs;
  }

  lemma StepKeepsGuard(sys: System, m: Move)
    requires GuardInv(sys)
    ensures GuardInv(Step(sys, m))
  {
    Facts(sys.sh, PcOf(sys, m.thread), m.thread, m.choice);
  }

  // The step of a lock() that starts its wipe is the one that ends its cover.
  predicate StartsWipe(sys: System, m: Move) {
    PcOf(sys, m.thread) == HardLocking(HardWipe, true) && sys.sh.guard.None?
  }

  lemma CoverKept(sys: System, m: Move)
    requires GuardInv(sys) && Covered(sys) && !StartsWipe(sys, m)
    ensures Covered(Step(sys, m))
  {
    var pc, next := PcOf(sys, m.thread), Step(sys, m);
    Facts(sys.sh, pc, m.thread, m.choice);
    if !next.sh.anchor {
      if Does(Cover, PcOf(next, m.thread)) {
        DutyTaken(sys, m, Cover);
      } else {
        DutyKept(sys, m, Cover);
      }
    }
  }

  lemma WipeKeepsAnchor(sys: System, m: Move)
    requires GuardInv(sys) && AnchorInv(sys) && StartsWipe(sys, m)
    ensures AnchorInv(Step(sys, m))
  {
    var next := Step(sys, m);
    assert PcOf(next, m.thread) == HardLocking(HardClear, true);
    DutyTaken(sys, m, ClearSlot);
    DutyTaken(sys, m, ClearFlag);
    DutyTaken(sys, m, ClearKey);
    forall t | t in next.pcs ensures next.pcs[t] != Prompting(QuickFlag) && next.pcs[t] != Prompting(QuickCommit(next.sh.epoch)) {
      if t != m.thread {
        assert next.pcs[t] == sys.pcs[t] && !Holds(sys.pcs[t]);
        assert SampledBy(sys.pcs[t], next.sh.epoch) ==> next.sh.epoch <= sys.sh.epoch;
      }
    }
  }

  // What still needs clearing in the next state is in the hands of a lock().
  lemma UncoveredKeys(sys: System, m: Move)
    requires GuardInv(sys) && AnchorInv(sys) && !Covered(sys) && !Covered(Step(sys, m)) && !MovesInGap(sys, m)
    ensures var next := Step(sys, m);
            && (next.sh.retained ==> Anyone(next, ClearSlot))
            && (next.sh.unlocked ==> Anyone(next, ClearFlag))
            && (next.sh.userKey ==> Anyone(next, ClearKey))
  {
    var pc, next := PcOf(sys, m.thread), Step(sys, m);
    Facts(sys.sh, pc, m.thread, m.choice);
    if Does(Cover, PcOf(next, m.thread)) {
      DutyTaken(sys, m, Cover);
    }
    if next.sh.retained {
      DutyKept(sys, m, ClearSlot);
    }
    if next.sh.unlocked {
      DutyKept(sys, m, ClearFlag);
    }
    if next.sh.userKey {
      DutyKept(sys, m, ClearKey);
    }
  }

  // A restore goes on to its commit only from a valid key in the slot, without a new epoch.
  lemma ReadFacts(s: Shared, e: nat, t: nat, c: Choice)
    ensures var r := AdvanceQuick(s, QuickRead(e), t, c);
            r.0.epoch == s.epoch
            && forall f: nat :: r.1 == Prompting(QuickCommit(f)) ==> f == e && s.retained && c.restore == Session.Valid
  {
  }

  // Without a cover an occupied slot is about to be cleared, so that whoever reads it in the new
  // epoch does so in the window.
  lemma UncoveredReads(sys: System, m: Move)
    requires AnchorInv(sys) && !Covered(sys) && sys.sh.retained
    requires PcOf(sys, m.thread) == Prompting(QuickRead(sys.sh.epoch)) && m.choice.restore == Session.Valid
    ensures ReadsInWindow(sys, m)
  {
    var u :| u in sys.pcs && Does(ClearSlot, sys.pcs[u]);
  }

  lemma UncoveredRestores(sys: System, m: Move)
    requires GuardInv(sys) && AnchorInv(sys) && !Covered(sys) && !ReadsInWindow(sys, m)
    ensures var next := Step(sys, m);
            forall t :: t in next.pcs ==> next.pcs[t] != Prompting(QuickFlag) && next.pcs[t] != Prompting(QuickCommit(next.sh.epoch))
  {
    var pc, next := PcOf(sys, m.thread), Step(sys, m);
    Facts(sys.sh, pc, m.thread, m.choice);
    assert pc.Prompting? && pc.q.QuickCommit? ==> SampledBy(pc, pc.q.epoch);
    if pc.Prompting? && pc.q.QuickRead? {
      ReadFacts(sys.sh, pc.q.epoch, m.thread, m.choice);
      if pc.q.epoch == sys.sh.epoch && sys.sh.retained && m.choice.restore == Session.Valid {
        UncoveredReads(sys, m);
      }
    }
    forall t | t in next.pcs && t != m.thread
      ensures next.pcs[t] != Prompting(QuickFlag) && next.pcs[t] != Prompting(QuickCommit(next.sh.epoch))
    {
      assert next.pcs[t] == sys.pcs[t];
      assert SampledBy(sys.pcs[t], next.sh.epoch) ==> next.sh.epoch <= sys.sh.epoch;
    }
  }

  lemma StepKeepsAnchor(sys: System, m: Move)
    requires GuardInv(sys) && AnchorInv(sys) && !LosesAnchor(sys, m)
    ensures AnchorInv(Step(sys, m))
  {
    if StartsWipe(sys, m) {
      WipeKeepsAnchor(sys, m);
    } else if Covered(sys) {
      CoverKept(sys, m);
    } else if !Covered(Step(sys, m)) {
      UncoveredKeys(sys, m);
      UncoveredRestores(sys, m);
    }
  }

  // A step that neither sets the anchor nor takes on a cover leaves an uncovered system uncovered.
  lemma StaysUncovered(sys: System, m: Move)
    requires !Covered(sys) && !Step(sys, m).sh.anchor && !Does(Cover, PcOf(Step(sys, m), m.thread))
    ensures !Covered(Step(sys, m))
  {
    var next := Step(sys, m);
    forall t | t in next.pcs ensures !Does(Cover, next.pcs[t]) {
      assert t != m.thread ==> next.pcs[t] == sys.pcs[t];
    }
  }

  // After a move in the gap there is a retained key that nobody is going to clear or anchor.
  lemma GapMoveLoses(sys: System, m: Move)
    requires GuardInv(sys) && !Covered(sys) && MovesInGap(sys, m)
    ensures !AnchorInv(Step(sys, m))
  {
    var next := Step(sys, m);
    StaysUncovered(sys, m);
    forall t | t in next.pcs ensures !Does(ClearSlot, next.pcs[t]) {
      assert t != m.thread ==> next.pcs[t] == sys.pcs[t] && !Holds(sys.pcs[t]);
    }
  }

  // After a read in the window a restore is under way that no lock() is going to abort.
  lemma WindowReadLoses(sys: System, m: Move)
    requires !Covered(sys) && ReadsInWindow(sys, m)
    ensures !AnchorInv(Step(sys, m))
  {
    var next := Step(sys, m);
    assert PcOf(next, m.thread) == Prompting(QuickCommit(next.sh.epoch)) && m.thread in next.pcs;
    StaysUncovered(sys, m);
  }

  // A step keeps the invariant if and only if it is not one of the two moves made uncovered.
  lemma AnchorKeptExactly(sys: System, m: Move)
    requires GuardInv(sys) && AnchorInv(sys)
    ensures AnchorInv(Step(sys, m)) <==> !LosesAnchor(sys, m)
  {
    if !LosesAnchor(sys, m) {
      StepKeepsAnchor(sys, m);
    } else if MovesInGap(sys, m) {
      GapMoveLoses(sys, m);
    } else {
      WindowReadLoses(sys, m);
    }
  }

  // Where a run may start: the daemon's start, or any state that keeps both invariants.
  ghost predicate Anchored(sys: System) {
    GuardInv(sys) && AnchorInv(sys)
  }

  lemma FreshIsAnchored(start: System)
    requires Fresh(start)
    ensures Anchored(start)
  {
  }

  lemma {:induction false} RunKeepsGuard(start: System, moves: seq<Move>)
    requires GuardInv(start)
    ensures GuardInv(Run(start, moves))
  {
    if moves != [] {
      RunKeepsGuard(start, moves[..|moves| - 1]);
      StepKeepsGuard(Run(start, moves[..|moves| - 1]), moves[|moves| - 1]);
    }
  }

  // Every key in memory is anchored, or in the hands of a call that will anchor or clear it, all
  // the way through a run.
  ghost predicate AlwaysAnchored(start: System, moves: seq<Move>) {
    AnchorInv(Run(start, moves)) && (moves == [] || AlwaysAnchored(start, moves[..|moves| - 1]))
  }

  // The runs that are so are exactly the orderly ones.
  lemma {:induction false} OrderlyExactly(start: System, moves: seq<Move>)
    requires Anchored(start)
    ensures AlwaysAnchored(start, moves) <==> Orderly(start, moves)
  {
    if moves != [] {
      var before, m := moves[..|moves| - 1], moves[|moves| - 1];
      OrderlyExactly(start, before);
      RunKeepsGuard(start, before);
      if Orderly(start, before) {
        AlwaysImpliesNow(start, before);
        AnchorKeptExactly(Run(start, before), m);
      }
    }
  }

  lemma AlwaysImpliesNow(start: System, moves: seq<Move>)
    requires AlwaysAnchored(start, moves)
    ensures AnchorInv(Run(start, moves))
  {
  }

  predicate KeyInMemory(s: Shared) {
    s.unlocked || s.retained || s.userKey
  }

  // While no call is under way the invariant says just that a key in memory has its anchor.
  lemma InvariantAtRest(sys: System)
    requires Quiet(sys)
    ensures AnchorInv(sys) <==> (KeyInMemory(sys.sh) ==> sys.sh.anchor)
  {
    assert forall d :: !Anyone(sys, d);
  }

  // In an orderly run, whenever no call is under way, a key in memory has its anchor.
  lemma KeyHasAnchor(start: System, moves: seq<Move>)
    requires Anchored(start) && Orderly(start, moves)
    ensures Quiet(Run(start, moves)) && KeyInMemory(Run(start, moves).sh) ==> Run(start, moves).sh.anchor
  {
    OrderlyExactly(start, moves);
    AlwaysImpliesNow(start, moves);
  }

  // ----- without interruption -----

  // Inside the vault: from the first of a call's vault writes until its last.
  predicate InVault(pc: Pc) {
    match pc
    case HardLocking(h, _) => h != HardWipe
    case SoftLocking(p) => p == SoftFlag || p == SoftKey
    case Unlocking(u) => u == UnlockSlot || u == UnlockFlag
    case Prompting(q) => q.QuickRead? || q.QuickCommit? || q == QuickFlag || q == StrikeClear || q == StaleWipe || q == StaleClear
    case Wiping(w) => w == WipeClear
    case _ => false
  }

  // Each call on the vault runs as one step: no other thread moves while one is inside.
  predicate VaultCallsWhole(start: System, moves: seq<Move>) {
    moves == [] ||
    (var before, m := moves[..|moves| - 1], moves[|moves| - 1];
     VaultCallsWhole(start, before)
     && forall u :: u in Run(start, before).pcs && u != m.thread ==> !InVault(Run(start, before).pcs[u]))
  }

  lemma {:induction false} WholeIsOrderly(start: System, moves: seq<Move>)
    requires VaultCallsWhole(start, moves)
    ensures Orderly(start, moves)
  {
    if moves != [] {
      WholeIsOrderly(start, moves[..|moves| - 1]);
    }
  }

  // With each vault call one step, any interleaving of the session fields' writes keeps the law.
  lemma WholeCallsKeepAnchor(start: System, moves: seq<Move>)
    requires Fresh(start) && VaultCallsWhole(start, moves)
    ensures Quiet(Run(start, moves)) && KeyInMemory(Run(start, moves).sh) ==> Run(start, moves).sh.anchor
  {
    FreshIsAnchored(start);
    WholeIsOrderly(start, moves);
    KeyHasAnchor(start, moves);
  }
}
