/**
 The same operations taken apart: each step is one write behind one mutex, and any number of
 threads interleave. Which key it is does not matter here, only whether one is there.

 A program point is named after the write its thread makes next.
 */
module LockRaces {
  import opened Results
  import Session

  datatype Shared = Shared(
    unlocked: bool, userKey: bool, retained: bool, epoch: nat, anchor: bool, unlockedAt: bool, failures: nat,
    guard: Option<nat>,   // the thread holding the vault's restore guard
    busy: Option<nat>)    // the thread holding the prompt

  // lock(): the session fields, and then the vault's hard lock
  datatype LockPoint =
    | LockTime            // unlocked_at := None
    | LockAnchor          // session_anchor := None
    | LockStrikes         // failures := 0

  // the vault's hard lock, inside lock() or called from elsewhere
  datatype HardPoint =
    | HardWipe            // take the guard, bump the epoch
    | HardClear           // clear the slot, release the guard
    | HardFlag            // is_unlocked := false
    | HardKey             // user_key := None

  datatype SoftPoint =
    | SoftTime            // unlocked_at := None
    | SoftDecide          // read whether quick unlock is usable
    | SoftMove            // take the guard, move the user key to the slot
    | SoftFlag            // is_unlocked := false
    | SoftKey             // user_key := None, release the guard

  // unlock() with the right password; its first write is user_key
  datatype UnlockPoint =
    | UnlockSlot          // refresh an occupied slot
    | UnlockFlag          // is_unlocked := true
    | UnlockTime          // unlocked_at := now
    | UnlockAnchor        // session_anchor := now
    | UnlockStrikes       // failures := 0

  // a quick unlock, holding the prompt
  datatype QuickPoint =
    | QuickRecheck        // is a key still retained?
    | QuickPrompt         // the user answers; a denial counts
    | StrikeWipe          // third denial: take the guard, bump the epoch
    | StrikeClear         // clear the slot, release the guard
    | StrikeReset         // failures := 0
    | QuickSample         // read the epoch
    | QuickRead(epoch: nat)     // read the slot, decrypt, validate
    | StaleWipe           // the key is stale: take the guard, bump the epoch
    | StaleClear          // clear the slot, release the guard
    | QuickCommit(epoch: nat)   // take the guard, compare the epoch, write user_key
    | QuickFlag           // is_unlocked := true, release the guard
    | QuickStrikes        // failures := 0
    | QuickTime           // unlocked_at := now

  // a wipe by request
  datatype WipePoint =
    | WipeBump            // take the guard, bump the epoch
    | WipeClear           // clear the slot, release the guard

  datatype Pc =
    | Idle
    | Locking(l: LockPoint)
    | HardLocking(h: HardPoint, inLock: bool)
    | SoftLocking(s: SoftPoint)
    | Unlocking(u: UnlockPoint)
    | Prompting(q: QuickPoint)
    | Wiping(w: WipePoint)

  datatype Call = NoCall | CallLock | CallSoftLock | CallHardLock | CallUnlock | CallQuickUnlock | CallWipe

  // What the scheduler and the outside world decide for a step.
  datatype Choice = Choice(call: Call, usable: bool, prompt: Session.Prompt, restore: Session.Restore)

  datatype Move = Move(thread: nat, choice: Choice)

  datatype System = System(sh: Shared, pcs: map<nat, Pc>)

  function PcOf(sys: System, t: nat): Pc {
    if t in sys.pcs then sys.pcs[t] else Idle
  }

  function TakeAndBump(s: Shared, t: nat): Shared {
    s.(guard := Some(t), epoch := s.epoch + 1)
  }

  function ClearAndRelease(s: Shared): Shared {
    s.(retained := false, guard := None)
  }

  function Begin(s: Shared, t: nat, call: Call): (Shared, Pc) {
    match call
    case NoCall => (s, Idle)
    case CallLock => (s, Locking(LockTime))
    case CallSoftLock => (s, SoftLocking(SoftTime))
    case CallHardLock => (s, HardLocking(HardWipe, false))
    case CallUnlock => (s.(userKey := true), Unlocking(UnlockSlot))
    case CallQuickUnlock => if s.busy.None? then (s.(busy := Some(t)), Prompting(QuickRecheck)) else (s, Idle)
    case CallWipe => (s, Wiping(WipeBump))
  }

  function AdvanceLock(s: Shared, l: LockPoint): (Shared, Pc) {
    match l
    case LockTime => (s.(unlockedAt := false), Locking(LockAnchor))
    case LockAnchor => (s.(anchor := false), Locking(LockStrikes))
    case LockStrikes => (s.(failures := 0), HardLocking(HardWipe, true))
  }

  // A thread that needs the guard waits while another one holds it.
  function AdvanceHard(s: Shared, h: HardPoint, inLock: bool, t: nat): (Shared, Pc) {
    match h
    case HardWipe => if s.guard.None? then (TakeAndBump(s, t), HardLocking(HardClear, inLock)) else (s, HardLocking(h, inLock))
    case HardClear => (ClearAndRelease(s), HardLocking(HardFlag, inLock))
    case HardFlag => (s.(unlocked := false), HardLocking(HardKey, inLock))
    case HardKey => (s.(userKey := false), Idle)
  }

  function AdvanceSoft(s: Shared, p: SoftPoint, t: nat, usable: bool): (Shared, Pc) {
    match p
    case SoftTime => (s.(unlockedAt := false), SoftLocking(SoftDecide))
    case SoftDecide => (s, if usable then SoftLocking(SoftMove) else HardLocking(HardWipe, false))
    case SoftMove =>
      if s.guard.Some? then (s, SoftLocking(p))
      else (s.(guard := Some(t), retained := s.retained || s.userKey, userKey := false), SoftLocking(SoftFlag))
    case SoftFlag => (s.(unlocked := false), SoftLocking(SoftKey))
    case SoftKey => (s.(userKey := false, guard := None), Idle)
  }

  function AdvanceUnlock(s: Shared, u: UnlockPoint): (Shared, Pc) {
    match u
    case UnlockSlot => (s, Unlocking(UnlockFlag))
    case UnlockFlag => (s.(unlocked := true), Unlocking(UnlockTime))
    case UnlockTime => (s.(unlockedAt := true), Unlocking(UnlockAnchor))
    case UnlockAnchor => (s.(anchor := true), Unlocking(UnlockStrikes))
    case UnlockStrikes => (s.(failures := 0), Idle)
  }

  function Answer(s: Shared, prompt: Session.Prompt): (Shared, Pc) {
    match prompt
    case Unavailable => (s.(busy := None), Idle)
    case Authorized => (s, Prompting(QuickSample))
    case Denied =>
      var n := s.failures + 1;
      if n >= Session.MAX_QUICK_UNLOCK_FAILURES then (s.(failures := n), Prompting(StrikeWipe))
      else (s.(failures := n, busy := None), Idle)
  }

  function AdvanceQuick(s: Shared, q: QuickPoint, t: nat, c: Choice): (Shared, Pc) {
    match q
    case QuickRecheck => if s.retained then (s, Prompting(QuickPrompt)) else (s.(busy := None), Idle)
    case QuickPrompt => Answer(s, c.prompt)
    case StrikeWipe => if s.guard.None? then (TakeAndBump(s, t), Prompting(StrikeClear)) else (s, Prompting(q))
    case StrikeClear => (ClearAndRelease(s), Prompting(StrikeReset))
    case StrikeReset => (s.(failures := 0, busy := None), Idle)
    case QuickSample => (s, Prompting(QuickRead(s.epoch)))
    case QuickRead(e) =>
      if !s.retained || c.restore == Session.NoAccount then (s.(busy := None), Idle)
      else (s, Prompting(if c.restore == Session.Stale then StaleWipe else QuickCommit(e)))
    case StaleWipe => if s.guard.None? then (TakeAndBump(s, t), Prompting(StaleClear)) else (s, Prompting(q))
    case StaleClear => (ClearAndRelease(s).(busy := None), Idle)
    case QuickCommit(e) =>
      if s.guard.Some? then (s, Prompting(q))
      else if s.epoch != e then (s.(busy := None), Idle)
      else (s.(guard := Some(t), userKey := true), Prompting(QuickFlag))
    case QuickFlag => (s.(unlocked := true, guard := None), Prompting(QuickStrikes))
    case QuickStrikes => (s.(failures := 0), Prompting(QuickTime))
    case QuickTime => (s.(unlockedAt := true, busy := None), Idle)
  }

  function AdvanceWipe(s: Shared, w: WipePoint, t: nat): (Shared, Pc) {
    match w
    case WipeBump => if s.guard.None? then (TakeAndBump(s, t), Wiping(WipeClear)) else (s, Wiping(w))
    case WipeClear => (ClearAndRelease(s), Idle)
  }

  function Advance(s: Shared, pc: Pc, t: nat, c: Choice): (Shared, Pc) {
    match pc
    case Idle => Begin(s, t, c.call)
    case Locking(l) => AdvanceLock(s, l)
    case HardLocking(h, inLock) => AdvanceHard(s, h, inLock, t)
    case SoftLocking(p) => AdvanceSoft(s, p, t, c.usable)
    case Unlocking(u) => AdvanceUnlock(s, u)
    case Prompting(q) => AdvanceQuick(s, q, t, c)
    case Wiping(w) => AdvanceWipe(s, w, t)
  }

  function Step(sys: System, m: Move): System {
    var (s, pc) := Advance(sys.sh, PcOf(sys, m.thread), m.thread, m.choice);
    System(s, sys.pcs[m.thread := pc])
  }

  function Run(start: System, moves: seq<Move>): System {
    if moves == [] then start
    else Step(Run(start, moves[..|moves| - 1]), moves[|moves| - 1])
  }

  predicate Quiet(sys: System) {
    forall t :: t in sys.pcs ==> sys.pcs[t] == Idle
  }

  // Nothing unlocked, nothing retained, nobody running.
  predicate Fresh(sys: System) {
    sys.pcs == map[] && sys.sh.guard.None? && sys.sh.busy.None? && sys.sh.failures == 0
    && !sys.sh.unlocked && !sys.sh.userKey && !sys.sh.retained
  }

  // ----- an unlocked vault has its unlock time, under every interleaving -----

  // The call is about to clear the unlocked flag, or about to set the time.
  predicate SettlesTime(pc: Pc) {
    match pc
    case Idle => false
    case Locking(l) => l != LockTime
    case HardLocking(h, _) => h != HardKey
    case SoftLocking(p) => p != SoftTime && p != SoftKey
    case Unlocking(u) => u == UnlockTime
    case Prompting(q) => q == QuickStrikes || q == QuickTime
    case Wiping(_) => false
  }

  ghost predicate TimeInv(sys: System) {
    sys.sh.unlocked && !sys.sh.unlockedAt ==> exists t :: t in sys.pcs && SettlesTime(sys.pcs[t])
  }

  ghost predicate Untimed(s: Shared, pc: Pc) {
    s.unlocked && !s.unlockedAt && !SettlesTime(pc)
  }

  lemma QuickTimed(s: Shared, q: QuickPoint, t: nat, c: Choice)
    ensures var r := AdvanceQuick(s, q, t, c); Untimed(r.0, r.1) ==> Untimed(s, Prompting(q))
  {
  }

  lemma HardTimed(s: Shared, h: HardPoint, inLock: bool, t: nat)
    ensures var r := AdvanceHard(s, h, inLock, t); Untimed(r.0, r.1) ==> Untimed(s, HardLocking(h, inLock))
  {
  }

  lemma SoftTimed(s: Shared, p: SoftPoint, t: nat, usable: bool)
    ensures var r := AdvanceSoft(s, p, t, usable); Untimed(r.0, r.1) ==> Untimed(s, SoftLocking(p))
  {
  }

  // A step leaves its own thread untimed only where it was so before.
  lemma AdvanceTimed(s: Shared, pc: Pc, t: nat, c: Choice)
    ensures var r := Advance(s, pc, t, c); Untimed(r.0, r.1) ==> Untimed(s, pc)
  {
    match pc {
      case Prompting(q) => QuickTimed(s, q, t, c);
      case HardLocking(h, inLock) => HardTimed(s, h, inLock, t);
      case SoftLocking(p) => SoftTimed(s, p, t, c.usable);
      case _ =>
    }
  }

  lemma StepKeepsTime(sys: System, m: Move)
    requires TimeInv(sys)
    ensures TimeInv(Step(sys, m))
  {
    var next, pc := Step(sys, m), PcOf(sys, m.thread);
    AdvanceTimed(sys.sh, pc, m.thread, m.choice);
    assert m.thread in next.pcs;
    if Untimed(next.sh, next.pcs[m.thread]) {
      var u :| u in sys.pcs && SettlesTime(sys.pcs[u]);
      assert u in next.pcs && next.pcs[u] == sys.pcs[u];
    }
  }

  lemma {:induction false} UnlockedHasTime(start: System, moves: seq<Move>)
    requires Fresh(start)
    ensures TimeInv(Run(start, moves))
    ensures var sys := Run(start, moves); Quiet(sys) && sys.sh.unlocked ==> sys.sh.unlockedAt
  {
    if moves != [] {
      UnlockedHasTime(start, moves[..|moves| - 1]);
      StepKeepsTime(Run(start, moves[..|moves| - 1]), moves[|moves| - 1]);
    }
  }

  // ----- strikes: one prompt at a time keeps the counter below three -----

  predicate Striking(pc: Pc) {
    pc.Prompting? && (pc.q == StrikeWipe || pc.q == StrikeClear || pc.q == StrikeReset)
  }

  ghost predicate StrikeInv(sys: System) {
    && (forall t :: t in sys.pcs && sys.pcs[t].Prompting? ==> sys.sh.busy == Some(t))
    && (sys.sh.busy.Some? ==> PcOf(sys, sys.sh.busy.value).Prompting?)
    && sys.sh.failures <= 3
    && (sys.sh.failures == 3 ==> sys.sh.busy.Some? && Striking(PcOf(sys, sys.sh.busy.value)))
  }

  lemma QuickKeepsPrompt(s: Shared, q: QuickPoint, t: nat, c: Choice)
    requires s.busy == Some(t)
    ensures var r := AdvanceQuick(s, q, t, c);
            if r.1.Prompting? then r.0.busy == Some(t) else r.1 == Idle && r.0.busy.None?
  {
  }

  lemma QuickFailures(s: Shared, q: QuickPoint, t: nat, c: Choice)
    requires s.failures <= 3 && (s.failures == 3 ==> Striking(Prompting(q)))
    ensures var r := AdvanceQuick(s, q, t, c); r.0.failures <= 3 && (r.0.failures == 3 ==> Striking(r.1))
  {
  }

  ghost predicate KeepsPrompt(s: Shared, r: (Shared, Pc)) {
    !r.1.Prompting? && r.0.busy == s.busy && (r.0.failures == s.failures || r.0.failures == 0)
  }

  lemma HardKeepsPrompt(s: Shared, h: HardPoint, inLock: bool, t: nat)
    ensures KeepsPrompt(s, AdvanceHard(s, h, inLock, t))
  {
  }

  lemma SoftKeepsPrompt(s: Shared, p: SoftPoint, t: nat, usable: bool)
    ensures KeepsPrompt(s, AdvanceSoft(s, p, t, usable))
  {
  }

  lemma OthersKeepPrompt(s: Shared, pc: Pc, t: nat, c: Choice)
    requires !pc.Prompting? && !pc.Idle?
    ensures KeepsPrompt(s, Advance(s, pc, t, c))
  {
    match pc {
      case HardLocking(h, inLock) => HardKeepsPrompt(s, h, inLock, t);
      case SoftLocking(p) => SoftKeepsPrompt(s, p, t, c.usable);
      case _ =>
    }
  }

  lemma StepKeepsStrikes(sys: System, m: Move)
    requires StrikeInv(sys)
    ensures StrikeInv(Step(sys, m))
  {
    match PcOf(sys, m.thread) {
      case Idle =>
      case Prompting(q) =>
        QuickKeepsPrompt(sys.sh, q, m.thread, m.choice);
        QuickFailures(sys.sh, q, m.thread, m.choice);
      case pc =>
        OthersKeepPrompt(sys.sh, pc, m.thread, m.choice);
    }
  }

  // Never more than one prompt, and never three strikes at rest.
  lemma {:induction false} StrikesAtRest(start: System, moves: seq<Move>)
    requires Fresh(start)
    ensures StrikeInv(Run(start, moves))
    ensures var sys := Run(start, moves);
            forall t, u :: t in sys.pcs && u in sys.pcs && sys.pcs[t].Prompting? && sys.pcs[u].Prompting? ==> t == u
    ensures Quiet(Run(start, moves)) ==> Run(start, moves).sh.failures <= 2
  {
    if moves != [] {
      StrikesAtRest(start, moves[..|moves| - 1]);
      StepKeepsStrikes(Run(start, moves[..|moves| - 1]), moves[|moves| - 1]);
    }
  }
}
