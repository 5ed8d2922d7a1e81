/**
 Whether a vault that says it is unlocked has its user key, under every interleaving.

 A key without the flag is always put right by some call; the flag without a key is not, after
 exactly two kinds of write. Soft locks and quick unlocks among themselves never make one, which
 is what the restore guard is for.
 */
module KeyRaces {
  import opened Results
  import opened LockRaces
  import opened AnchorRaces

  // A lock that has yet to clear the unlocked flag, or the user key.
  predicate ClearsFlag(pc: Pc) {
    match pc
    case Locking(_) => true
    case HardLocking(h, _) => h != HardKey
    case SoftLocking(p) => p != SoftKey
    case _ => false
  }

  predicate ClearsKey(pc: Pc) {
    pc.Locking? || pc.HardLocking? || pc.SoftLocking?
  }

  // An unlock or a restore that has written the key and has yet to set the flag.
  predicate SetsFlag(pc: Pc) {
    pc == Unlocking(UnlockSlot) || pc == Unlocking(UnlockFlag) || pc == Prompting(QuickFlag)
  }

  ghost predicate SomeoneClearsFlag(sys: System) {
    exists t :: t in sys.pcs && ClearsFlag(sys.pcs[t])
  }

  ghost predicate SomeoneSettlesKey(sys: System) {
    exists t :: t in sys.pcs && (ClearsKey(sys.pcs[t]) || SetsFlag(sys.pcs[t]))
  }

  ghost predicate MatchInv(sys: System) {
    && (sys.sh.unlocked && !sys.sh.userKey ==> SomeoneClearsFlag(sys))
    && (sys.sh.userKey && !sys.sh.unlocked ==> SomeoneSettlesKey(sys))
  }

  // The last write of a lock, and the write that sets the flag.
  predicate ClearsLast(pc: Pc) {
    (pc.HardLocking? && pc.h == HardKey) || pc == SoftLocking(SoftKey)
  }

  predicate Flags(pc: Pc) {
    pc == Unlocking(UnlockFlag) || pc == Prompting(QuickFlag)
  }

  // A lock clears the key of a vault that was flagged again behind it, or an unlock flags a vault
  // whose key was cleared behind it, and no lock is left to clear the flag.
  ghost predicate LosesKey(sys: System, m: Move) {
    var pc := PcOf(sys, m.thread);
    !SomeoneClearsFlag(sys) && ((ClearsLast(pc) && sys.sh.unlocked) || (Flags(pc) && !sys.sh.userKey))
  }

  ghost predicate KeyFacts(s: Shared, pc: Pc, r: (Shared, Pc)) {
    && (ClearsFlag(pc) && !ClearsFlag(r.1) ==> !r.0.unlocked)
    && (ClearsKey(pc) && !ClearsKey(r.1) ==> !r.0.userKey)
    && (SetsFlag(pc) && !SetsFlag(r.1) ==> r.0.unlocked)
    && (r.0.userKey && !s.userKey ==> SetsFlag(r.1))
    && (s.unlocked && !r.0.unlocked ==> ClearsKey(r.1))
    && (r.0.unlocked && !s.unlocked ==> Flags(pc))
    && (s.userKey && !r.0.userKey ==> ClearsLast(pc) || ClearsFlag(r.1))
    && (Flags(pc) ==> r.0.unlocked && r.0.userKey == s.userKey && !ClearsFlag(r.1))
    && (ClearsLast(pc) ==> !r.0.userKey && r.0.unlocked == s.unlocked && !ClearsFlag(r.1))
  }

  lemma HardKeyFacts(s: Shared, h: HardPoint, inLock: bool, t: nat)
    ensures KeyFacts(s, HardLocking(h, inLock), AdvanceHard(s, h, inLock, t))
  {
  }

  lemma SoftKeyFacts(s: Shared, p: SoftPoint, t: nat, usable: bool)
    ensures KeyFacts(s, SoftLocking(p), AdvanceSoft(s, p, t, usable))
  {
  }

  lemma QuickKeyFacts(s: Shared, q: QuickPoint, t: nat, c: Choice)
    ensures KeyFacts(s, Prompting(q), AdvanceQuick(s, q, t, c))
  {
  }

  lemma OtherKeyFacts(s: Shared, pc: Pc, t: nat, c: Choice)
    requires pc.Idle? || pc.Locking? || pc.Unlocking? || pc.Wiping?
    ensures KeyFacts(s, pc, Advance(s, pc, t, c))
  {
    hide AdvanceHard;
    hide AdvanceSoft;
    hide AdvanceQuick;
  }

  lemma StepKeyFacts(s: Shared, pc: Pc, t: nat, c: Choice)
    ensures KeyFacts(s, pc, Advance(s, pc, t, c))
  {
    hide KeyFacts;
    hide AdvanceHard;
    hide AdvanceSoft;
    hide AdvanceQuick;
    match pc {
      case Prompting(q) => QuickKeyFacts(s, q, t, c);
      case HardLocking(h, inLock) => HardKeyFacts(s, h, inLock, t);
      case SoftLocking(p) => SoftKeyFacts(s, p, t, c.usable);
      case _ => OtherKeyFacts(s, pc, t, c);
    }
  }

  lemma OthersStay(sys: System, m: Move, u: nat)
    requires u in sys.pcs && u != m.thread
    ensures u in Step(sys, m).pcs && Step(sys, m).pcs[u] == sys.pcs[u]
  {
  }

  // A key without the flag stays in somebody's hands, whatever the step.
  lemma KeySettled(sys: System, m: Move)
    requires MatchInv(sys) && Step(sys, m).sh.userKey && !Step(sys, m).sh.unlocked
    ensures SomeoneSettlesKey(Step(sys, m))
  {
    var pc, next := PcOf(sys, m.thread), Step(sys, m);
    StepKeyFacts(sys.sh, pc, m.thread, m.choice);
    assert m.thread in next.pcs;
    if sys.sh.userKey && !sys.sh.unlocked {
      var u :| u in sys.pcs && (ClearsKey(sys.pcs[u]) || SetsFlag(sys.pcs[u]));
      if u != m.thread {
        OthersStay(sys, m, u);
      }
    }
  }

  lemma FlagCleared(sys: System, m: Move)
    requires MatchInv(sys) && !LosesKey(sys, m) && Step(sys, m).sh.unlocked && !Step(sys, m).sh.userKey
    ensures SomeoneClearsFlag(Step(sys, m))
  {
    var pc, next := PcOf(sys, m.thread), Step(sys, m);
    StepKeyFacts(sys.sh, pc, m.thread, m.choice);
    assert m.thread in next.pcs;
    if !ClearsFlag(next.pcs[m.thread]) {
      assert SomeoneClearsFlag(sys);
      var u :| u in sys.pcs && ClearsFlag(sys.pcs[u]);
      if u != m.thread {
        OthersStay(sys, m, u);
      }
    }
  }

  lemma KeyLost(sys: System, m: Move)
    requires LosesKey(sys, m)
    ensures !MatchInv(Step(sys, m))
  {
    var pc, next := PcOf(sys, m.thread), Step(sys, m);
    StepKeyFacts(sys.sh, pc, m.thread, m.choice);
    forall t | t in next.pcs ensures !ClearsFlag(next.pcs[t]) {
      assert t != m.thread ==> next.pcs[t] == sys.pcs[t];
    }
  }

  // A step keeps the invariant if and only if it is not one of the two writes.
  lemma KeyKeptExactly(sys: System, m: Move)
    requires MatchInv(sys)
    ensures MatchInv(Step(sys, m)) <==> !LosesKey(sys, m)
  {
    hide LosesKey;
    if !MatchInv(Step(sys, m)) && Step(sys, m).sh.userKey {
      KeySettled(sys, m);
    }
    if LosesKey(sys, m) {
      KeyLost(sys, m);
    } else if Step(sys, m).sh.unlocked && !Step(sys, m).sh.userKey {
      FlagCleared(sys, m);
    }
  }

  ghost predicate AlwaysMatched(start: System, moves: seq<Move>) {
    MatchInv(Run(start, moves)) && (moves == [] || AlwaysMatched(start, moves[..|moves| - 1]))
  }

  ghost predicate NeverLosesKey(start: System, moves: seq<Move>) {
    moves == [] ||
    (NeverLosesKey(start, moves[..|moves| - 1]) && !LosesKey(Run(start, moves[..|moves| - 1]), moves[|moves| - 1]))
  }

  // The runs that keep it throughout are exactly those without such a write.
  lemma {:induction false} MatchedExactly(start: System, moves: seq<Move>)
    requires Fresh(start)
    ensures AlwaysMatched(start, moves) <==> NeverLosesKey(start, moves)
  {
    if moves != [] {
      var before := moves[..|moves| - 1];
      MatchedExactly(start, before);
      if NeverLosesKey(start, before) {
        NowMatched(start, before);
        KeyKeptExactly(Run(start, before), moves[|moves| - 1]);
      }
    }
  }

  lemma NowMatched(start: System, moves: seq<Move>)
    requires AlwaysMatched(start, moves)
    ensures MatchInv(Run(start, moves))
  {
  }

  // While no call is under way it says just that the vault is unlocked if and only if it has its key.
  lemma MatchAtRest(sys: System)
    requires Quiet(sys)
    ensures MatchInv(sys) <==> (sys.sh.unlocked <==> sys.sh.userKey)
  {
  }

  // ----- one half holds in every run -----

  ghost predicate SettledInv(sys: System) {
    sys.sh.userKey && !sys.sh.unlocked ==> SomeoneSettlesKey(sys)
  }

  lemma StepKeepsSettled(sys: System, m: Move)
    requires SettledInv(sys)
    ensures SettledInv(Step(sys, m))
  {
    var pc, next := PcOf(sys, m.thread), Step(sys, m);
    StepKeyFacts(sys.sh, pc, m.thread, m.choice);
    assert m.thread in next.pcs;
    if sys.sh.userKey && !sys.sh.unlocked {
      var u :| u in sys.pcs && (ClearsKey(sys.pcs[u]) || SetsFlag(sys.pcs[u]));
      if u != m.thread {
        OthersStay(sys, m, u);
      }
    }
  }

  // A user key at rest is one of an unlocked vault, whatever the interleaving.
  lemma {:induction false} KeyMeansUnlocked(start: System, moves: seq<Move>)
    requires Fresh(start)
    ensures SettledInv(Run(start, moves))
    ensures Quiet(Run(start, moves)) && Run(start, moves).sh.userKey ==> Run(start, moves).sh.unlocked
  {
    if moves != [] {
      KeyMeansUnlocked(start, moves[..|moves| - 1]);
      StepKeepsSettled(Run(start, moves[..|moves| - 1]), moves[|moves| - 1]);
    }
  }

  // ----- what the restore guard is for -----

  // No master unlock and no hard lock: soft locks that retain, quick unlocks, wipes by request.
  predicate Guarded(m: Move) {
    m.choice.usable && m.choice.call in {NoCall, CallSoftLock, CallQuickUnlock, CallWipe}
  }

  predicate GuardedPc(pc: Pc) {
    pc.Idle? || pc.SoftLocking? || pc.Prompting? || pc.Wiping?
  }

  ghost predicate GuardedInv(sys: System) {
    && GuardInv(sys)
    && (forall t :: t in sys.pcs ==> GuardedPc(sys.pcs[t]))
    && (forall t :: t in sys.pcs && sys.pcs[t] == SoftLocking(SoftKey) ==> !sys.sh.unlocked)
    && (forall t :: t in sys.pcs && sys.pcs[t] == Prompting(QuickFlag) ==> sys.sh.userKey)
  }

  // Flag and key are written under the guard.
  ghost predicate GuardFacts(s: Shared, pc: Pc, r: (Shared, Pc)) {
    && GuardedPc(r.1)
    && (r.0.unlocked && !s.unlocked ==> Holds(pc))
    && (s.userKey && !r.0.userKey ==> Holds(pc) || s.guard.None?)
    && (r.1 == SoftLocking(SoftKey) ==> !r.0.unlocked)
    && (r.1 == Prompting(QuickFlag) ==> r.0.userKey)
  }

  lemma SoftGuardFacts(s: Shared, p: SoftPoint, t: nat)
    ensures GuardFacts(s, SoftLocking(p), AdvanceSoft(s, p, t, true))
  {
  }

  lemma QuickGuardFacts(s: Shared, q: QuickPoint, t: nat, c: Choice)
    ensures GuardFacts(s, Prompting(q), AdvanceQuick(s, q, t, c))
  {
  }

  lemma StepGuardFacts(s: Shared, pc: Pc, m: Move)
    requires Guarded(m) && GuardedPc(pc)
    ensures GuardFacts(s, pc, Advance(s, pc, m.thread, m.choice))
  {
    match pc {
      case SoftLocking(p) => SoftGuardFacts(s, p, m.thread);
      case Prompting(q) => QuickGuardFacts(s, q, m.thread, m.choice);
      case _ =>
    }
  }

  lemma StepKeepsGuarded(sys: System, m: Move)
    requires GuardedInv(sys) && Guarded(m)
    ensures GuardedInv(Step(sys, m)) && !LosesKey(sys, m)
  {
    var pc, next := PcOf(sys, m.thread), Step(sys, m);
    StepKeepsGuard(sys, m);
    StepGuardFacts(sys.sh, pc, m);
    forall t | t in next.pcs && t != m.thread
      ensures GuardedPc(next.pcs[t])
      ensures next.pcs[t] == SoftLocking(SoftKey) ==> !next.sh.unlocked
      ensures next.pcs[t] == Prompting(QuickFlag) ==> next.sh.userKey
    {
      assert next.pcs[t] == sys.pcs[t];
      assert Holds(sys.pcs[t]) ==> sys.sh.guard == Some(t);
    }
  }

  // Soft locks and quick unlocks, however they interleave, leave the vault unlocked if and only if
  // it has its key.
  lemma {:induction false} GuardServes(start: System, moves: seq<Move>)
    requires GuardedInv(start) && MatchInv(start) && forall i :: 0 <= i < |moves| ==> Guarded(moves[i])
    ensures GuardedInv(Run(start, moves)) && MatchInv(Run(start, moves))
    ensures Quiet(Run(start, moves)) ==> (Run(start, moves).sh.unlocked <==> Run(start, moves).sh.userKey)
  {
    if moves != [] {
      var before, m := moves[..|moves| - 1], moves[|moves| - 1];
      GuardServes(start, before);
      StepKeepsGuarded(Run(start, before), m);
      KeyKeptExactly(Run(start, before), m);
    }
    if Quiet(Run(start, moves)) {
      MatchAtRest(Run(start, moves));
    }
  }
}
