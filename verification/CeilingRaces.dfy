/**
 The session ceiling under interleavings. The anchor gets its time, every move is stamped, and the
 watchdog's check is made while no call is under way: after it, and until the next one, no key is
 older than the session lifetime and the period between checks.
 */
module CeilingRaces {
  import opened Results
  import opened LockRaces
  import opened AnchorRaces
  import opened KeyRaces
  import opened RaceExamples
  import Session

  datatype Stamped = Stamped(now: nat, move: Move)

  function Moves(ms: seq<Stamped>): (moves: seq<Move>)
    ensures |moves| == |ms|
  {
    seq(|ms|, i requires 0 <= i < |ms| => ms[i].move)
  }

  function After(start: System, ms: seq<Stamped>): System {
    Run(start, Moves(ms))
  }

  lemma AfterLast(start: System, ms: seq<Stamped>)
    requires ms != []
    ensures After(start, ms) == Step(After(start, ms[..|ms| - 1]), ms[|ms| - 1].move)
  {
    assert Moves(ms)[..|ms| - 1] == Moves(ms[..|ms| - 1]);
  }

  // The time the anchor holds: of the last unlock to set it, if no lock has cleared it since.
  function AnchorTime(start: System, anchor: Option<nat>, ms: seq<Stamped>): Option<nat> {
    if ms == [] then anchor
    else
      var before, m := ms[..|ms| - 1], ms[|ms| - 1];
      var pc := PcOf(After(start, before), m.move.thread);
      if pc == Unlocking(UnlockAnchor) then Some(m.now)
      else if pc == Locking(LockAnchor) then None
      else AnchorTime(start, anchor, before)
  }

  // The time of the last master unlock, as it wrote the anchor.
  function LastUnlock(start: System, ms: seq<Stamped>): Option<nat> {
    if ms == [] then None
    else
      var before, m := ms[..|ms| - 1], ms[|ms| - 1];
      if PcOf(After(start, before), m.move.thread) == Unlocking(UnlockAnchor) then Some(m.now) else LastUnlock(start, before)
  }

  lemma {:induction false} AnchorIsLastUnlock(start: System, ms: seq<Stamped>)
    ensures AnchorTime(start, None, ms).Some? ==> AnchorTime(start, None, ms) == LastUnlock(start, ms)
    decreases |ms|
  {
    if ms != [] {
      AnchorIsLastUnlock(start, ms[..|ms| - 1]);
    }
  }

  // ----- the anchor decides nothing but itself -----

  function AnchorNext(pc: Pc, anchor: bool): bool {
    if pc == Unlocking(UnlockAnchor) then true else if pc == Locking(LockAnchor) then false else anchor
  }

  ghost predicate Twins(s: Shared, x: bool, pc: Pc, r: (Shared, Pc), r': (Shared, Pc)) {
    r.0.anchor == AnchorNext(pc, s.anchor) && r' == (r.0.(anchor := AnchorNext(pc, x)), r.1)
  }

  lemma HardTwins(s: Shared, x: bool, h: HardPoint, inLock: bool, t: nat)
    ensures Twins(s, x, HardLocking(h, inLock), AdvanceHard(s, h, inLock, t), AdvanceHard(s.(anchor := x), h, inLock, t))
  {
  }

  lemma SoftTwins(s: Shared, x: bool, p: SoftPoint, t: nat, usable: bool)
    ensures Twins(s, x, SoftLocking(p), AdvanceSoft(s, p, t, usable), AdvanceSoft(s.(anchor := x), p, t, usable))
  {
  }

  lemma RestoreTwins(s: Shared, x: bool, q: QuickPoint, t: nat, c: Choice)
    requires Restoring(q)
    ensures Twins(s, x, Prompting(q), AdvanceQuick(s, q, t, c), AdvanceQuick(s.(anchor := x), q, t, c))
  {
  }

  lemma AnswerTwins(s: Shared, x: bool, prompt: Session.Prompt)
    ensures Twins(s, x, Prompting(QuickPrompt), Answer(s, prompt), Answer(s.(anchor := x), prompt))
  {
  }

  lemma AskTwins(s: Shared, x: bool, q: QuickPoint, t: nat, c: Choice)
    requires Asking(q)
    ensures Twins(s, x, Prompting(q), AdvanceQuick(s, q, t, c), AdvanceQuick(s.(anchor := x), q, t, c))
  {
    hide Answer;
    AnswerTwins(s, x, c.prompt);
  }

  // A step that takes the guard and starts a wipe, or waits.
  predicate Bumping(q: QuickPoint) {
    q == StrikeWipe || q == StaleWipe
  }

  lemma BumpTwins(s: Shared, x: bool, q: QuickPoint, t: nat, c: Choice)
    requires Bumping(q)
    ensures Twins(s, x, Prompting(q), AdvanceQuick(s, q, t, c), AdvanceQuick(s.(anchor := x), q, t, c))
  {
  }

  lemma EndTwins(s: Shared, x: bool, q: QuickPoint, t: nat, c: Choice)
    requires !Restoring(q) && !Asking(q) && !Bumping(q)
    ensures Twins(s, x, Prompting(q), AdvanceQuick(s, q, t, c), AdvanceQuick(s.(anchor := x), q, t, c))
  {
  }

  lemma QuickTwins(s: Shared, x: bool, q: QuickPoint, t: nat, c: Choice)
    ensures Twins(s, x, Prompting(q), AdvanceQuick(s, q, t, c), AdvanceQuick(s.(anchor := x), q, t, c))
  {
    hide Twins;
    hide AdvanceQuick;
    if Restoring(q) {
      RestoreTwins(s, x, q, t, c);
    } else if Asking(q) {
      AskTwins(s, x, q, t, c);
    } else if Bumping(q) {
      BumpTwins(s, x, q, t, c);
    } else {
      EndTwins(s, x, q, t, c);
    }
  }

  lemma LockTwins(s: Shared, x: bool, l: LockPoint)
    ensures Twins(s, x, Locking(l), AdvanceLock(s, l), AdvanceLock(s.(anchor := x), l))
  {
  }

  lemma UnlockTwins(s: Shared, x: bool, u: UnlockPoint)
    ensures Twins(s, x, Unlocking(u), AdvanceUnlock(s, u), AdvanceUnlock(s.(anchor := x), u))
  {
  }

  lemma WipeTwins(s: Shared, x: bool, w: WipePoint, t: nat)
    ensures Twins(s, x, Wiping(w), AdvanceWipe(s, w, t), AdvanceWipe(s.(anchor := x), w, t))
  {
  }

  lemma BeginTwins(s: Shared, x: bool, call: Call, t: nat)
    ensures Twins(s, x, Idle, Begin(s, t, call), Begin(s.(anchor := x), t, call))
  {
  }

  lemma AdvanceTwins(s: Shared, x: bool, pc: Pc, t: nat, c: Choice)
    ensures Twins(s, x, pc, Advance(s, pc, t, c), Advance(s.(anchor := x), pc, t, c))
  {
    hide Twins;
    hide AdvanceHard;
    hide AdvanceSoft;
    hide AdvanceQuick;
    match pc {
      case Prompting(q) => QuickTwins(s, x, q, t, c);
      case HardLocking(h, inLock) => HardTwins(s, x, h, inLock, t);
      case SoftLocking(p) => SoftTwins(s, x, p, t, c.usable);
      case Locking(l) => LockTwins(s, x, l);
      case Unlocking(u) => UnlockTwins(s, x, u);
      case Wiping(w) => WipeTwins(s, x, w, t);
      case Idle => BeginTwins(s, x, c.call, t);
    }
  }

  function WithAnchor(sys: System, anchor: bool): System {
    sys.(sh := sys.sh.(anchor := anchor))
  }

  // An anchor from before `since` counts as none.
  predicate Young(anchor: Option<nat>, since: int) {
    anchor.Some? && anchor.value >= since
  }

  // Running on with old anchors counted as none is the same run, but for that.
  lemma {:induction false} RunYoung(start: System, anchor: Option<nat>, ms: seq<Stamped>, since: int)
    requires forall i :: 0 <= i < |ms| ==> ms[i].now >= since
    ensures After(WithAnchor(start, Young(anchor, since)), ms)
         == WithAnchor(After(start, ms), Young(AnchorTime(start, anchor, ms), since))
    decreases |ms|
  {
    if ms != [] {
      var before, m := ms[..|ms| - 1], ms[|ms| - 1];
      RunYoung(start, anchor, before, since);
      AfterLast(start, ms);
      AfterLast(WithAnchor(start, Young(anchor, since)), ms);
      var sys := After(start, before);
      AdvanceTwins(sys.sh, Young(AnchorTime(start, anchor, before), since), PcOf(sys, m.move.thread), m.move.thread, m.move.choice);
    }
  }

  lemma {:induction false} AnchorKnown(start: System, anchor: Option<nat>, ms: seq<Stamped>)
    requires anchor.Some? <==> start.sh.anchor
    ensures AnchorTime(start, anchor, ms).Some? <==> After(start, ms).sh.anchor
    decreases |ms|
  {
    if ms != [] {
      var before, m := ms[..|ms| - 1], ms[|ms| - 1];
      AnchorKnown(start, anchor, before);
      AfterLast(start, ms);
      var sys := After(start, before);
      AdvanceTwins(sys.sh, true, PcOf(sys, m.move.thread), m.move.thread, m.move.choice);
    }
  }

  // ----- nobody holds the guard at rest -----

  ghost predicate GuardOwned(sys: System) {
    sys.sh.guard.Some? ==> Holds(PcOf(sys, sys.sh.guard.value))
  }

  ghost predicate OwnsGuard(s: Shared, pc: Pc, t: nat, r: (Shared, Pc)) {
    (r.0.guard == s.guard && (Holds(pc) ==> Holds(r.1))) || (r.0.guard == Some(t) && Holds(r.1)) || r.0.guard.None?
  }

  lemma HardOwns(s: Shared, h: HardPoint, inLock: bool, t: nat)
    ensures OwnsGuard(s, HardLocking(h, inLock), t, AdvanceHard(s, h, inLock, t))
  {
  }

  lemma SoftOwns(s: Shared, p: SoftPoint, t: nat, usable: bool)
    ensures OwnsGuard(s, SoftLocking(p), t, AdvanceSoft(s, p, t, usable))
  {
  }

  lemma QuickOwns(s: Shared, q: QuickPoint, t: nat, c: Choice)
    ensures OwnsGuard(s, Prompting(q), t, AdvanceQuick(s, q, t, c))
  {
  }

  lemma StepKeepsOwner(sys: System, m: Move)
    requires GuardOwned(sys)
    ensures GuardOwned(Step(sys, m))
  {
    hide AdvanceHard;
    hide AdvanceSoft;
    hide AdvanceQuick;
    match PcOf(sys, m.thread) {
      case Prompting(q) => QuickOwns(sys.sh, q, m.thread, m.choice);
      case HardLocking(h, inLock) => HardOwns(sys.sh, h, inLock, m.thread);
      case SoftLocking(p) => SoftOwns(sys.sh, p, m.thread, m.choice.usable);
      case _ =>
    }
  }

  lemma {:induction false} FreeAtRest(start: System, moves: seq<Move>)
    requires Fresh(start)
    ensures GuardOwned(Run(start, moves))
    ensures Quiet(Run(start, moves)) ==> Run(start, moves).sh.guard.None?
  {
    if moves != [] {
      FreeAtRest(start, moves[..|moves| - 1]);
      StepKeepsOwner(Run(start, moves[..|moves| - 1]), moves[|moves| - 1]);
    }
  }

  // ----- the check -----

  // The watchdog looks at the anchor and, if it is too old and a key is there, locks.
  function Check(sys: System, anchor: Option<nat>, limit: nat, watchdog: nat, now: nat): System {
    if Session.Expired(anchor, limit, now) && (sys.sh.unlocked || sys.sh.retained) then Steps(sys, watchdog, CallLock, 8) else sys
  }

  function CheckedAnchor(sys: System, anchor: Option<nat>, limit: nat, now: nat): Option<nat> {
    if Session.Expired(anchor, limit, now) && (sys.sh.unlocked || sys.sh.retained) then None else anchor
  }

  lemma LockFromRest(sys: System, t: nat)
    requires Quiet(sys) && sys.sh.guard.None?
    ensures var r := Steps(sys, t, CallLock, 8);
            && r.pcs == sys.pcs[t := Idle]
            && r.sh == sys.sh.(unlockedAt := false, anchor := false, failures := 0, epoch := sys.sh.epoch + 1,
                               retained := false, unlocked := false, userKey := false)
  {
    var m := Move(t, Choose(CallLock));
    assert PcOf(sys, t) == Idle;
    Three(sys, t, CallLock, 8);
    var s3 := sys.sh.(unlockedAt := false, anchor := false);
    assert Step(Step(Step(sys, m), m), m) == System(s3, sys.pcs[t := Locking(LockStrikes)]);
    Three(System(s3, sys.pcs[t := Locking(LockStrikes)]), t, CallLock, 5);
    LockEndsFromStrikes(s3, sys.pcs, t);
  }

  lemma LockEndsFromStrikes(s: Shared, pcs: map<nat, Pc>, t: nat)
    requires s.guard.None?
    ensures var m := Move(t, Choose(CallLock));
            var sys := System(s, pcs[t := Locking(LockStrikes)]);
            Steps(Step(Step(Step(sys, m), m), m), t, CallLock, 2)
              == System(s.(failures := 0, epoch := s.epoch + 1, retained := false, unlocked := false, userKey := false), pcs[t := Idle])
  {
    var m := Move(t, Choose(CallLock));
    var sys := System(s, pcs[t := Locking(LockStrikes)]);
    var s1 := s.(failures := 0);
    assert Step(sys, m) == System(s1, pcs[t := HardLocking(HardWipe, true)]);
    var s2 := s1.(guard := Some(t), epoch := s.epoch + 1);
    assert Step(System(s1, pcs[t := HardLocking(HardWipe, true)]), m) == System(s2, pcs[t := HardLocking(HardClear, true)]);
    var s3 := s2.(retained := false, guard := None);
    assert Step(System(s2, pcs[t := HardLocking(HardClear, true)]), m) == System(s3, pcs[t := HardLocking(HardFlag, true)]);
    var flag := System(s3, pcs[t := HardLocking(HardFlag, true)]);
    assert Step(flag, m) == System(s3.(unlocked := false), pcs[t := HardLocking(HardKey, true)]);
    assert Steps(flag, t, CallLock, 2) == Step(Step(flag, m), m);
  }

  // A state to check: what an orderly run from the daemon's start leaves at rest.
  ghost predicate Checkable(start: System, ms: seq<Stamped>) {
    Fresh(start) && !start.sh.anchor && Orderly(start, Moves(ms)) && Quiet(After(start, ms))
  }

  // What the check leaves: at rest, and any key has an anchor within the limit.
  lemma CheckLeaves(start: System, ms: seq<Stamped>, limit: nat, watchdog: nat, now: nat)
    requires Checkable(start, ms) && limit > 0
    ensures var sys, a := After(start, ms), AnchorTime(start, None, ms);
            var next, b := Check(sys, a, limit, watchdog, now), CheckedAnchor(sys, a, limit, now);
            && Quiet(next) && (b.Some? <==> next.sh.anchor)
            && (a.None? || now <= a.value + limit ==> next == sys)
            && (KeyInMemory(next.sh) ==> b.Some? && b == a && Session.Elapsed(b.value, now) <= limit)
  {
    hide Steps;
    var sys := After(start, ms);
    AnchorKnown(start, None, ms);
    FreshIsAnchored(start);
    KeyHasAnchor(start, Moves(ms));
    KeyMeansUnlocked(start, Moves(ms));
    FreeAtRest(start, Moves(ms));
    LockFromRest(sys, watchdog);
  }

  // After a check made at rest no key is older than the session lifetime, counted from the last
  // master unlock, whatever interleaving came before, so long as it was orderly.
  lemma CeilingAtCheck(start: System, ms: seq<Stamped>, limit: nat, watchdog: nat, now: nat)
    requires Checkable(start, ms) && limit > 0
    ensures KeyInMemory(Check(After(start, ms), AnchorTime(start, None, ms), limit, watchdog, now).sh) ==>
              LastUnlock(start, ms).Some? && Session.Elapsed(LastUnlock(start, ms).value, now) <= limit
  {
    hide Check;
    CheckLeaves(start, ms, limit, watchdog, now);
    AnchorIsLastUnlock(start, ms);
  }

  // Until the next check: whatever moves follow, orderly with an anchor that was too old counted
  // as none, a key at rest is at most a period over the limit.
  lemma CeilingUntilNext(start: System, ms: seq<Stamped>, limit: nat, watchdog: nat, checked: nat,
                         later: seq<Stamped>, now: nat, period: nat)
    requires Checkable(start, ms) && limit > 0 && now <= checked + period
    requires forall i :: 0 <= i < |later| ==> later[i].now >= checked
    requires var sys, a := After(start, ms), AnchorTime(start, None, ms);
             var next, b := Check(sys, a, limit, watchdog, checked), CheckedAnchor(sys, a, limit, checked);
             && Quiet(After(next, later))
             && Orderly(WithAnchor(next, Young(b, checked - limit)), Moves(later))
    ensures var sys, a := After(start, ms), AnchorTime(start, None, ms);
            var next, b := Check(sys, a, limit, watchdog, checked), CheckedAnchor(sys, a, limit, checked);
            var anchor := AnchorTime(next, b, later);
            KeyInMemory(After(next, later).sh) ==> anchor.Some? && now <= anchor.value + limit + period
  {
    hide Check;
    hide CheckedAnchor;
    hide KeyInMemory;
    var sys, a := After(start, ms), AnchorTime(start, None, ms);
    var next, b := Check(sys, a, limit, watchdog, checked), CheckedAnchor(sys, a, limit, checked);
    CheckLeaves(start, ms, limit, watchdog, checked);
    RunYoung(next, b, later, checked - limit);
    RestIsAnchored(next, b, limit, checked);
    var twin := WithAnchor(next, Young(b, checked - limit));
    KeyHasAnchor(twin, Moves(later));
    SameKeys(After(next, later), Young(AnchorTime(next, b, later), checked - limit));
  }

  lemma SameKeys(sys: System, anchor: bool)
    ensures KeyInMemory(WithAnchor(sys, anchor).sh) <==> KeyInMemory(sys.sh)
    ensures Quiet(WithAnchor(sys, anchor)) <==> Quiet(sys)
  {
  }

  lemma RestIsAnchored(next: System, b: Option<nat>, limit: nat, checked: nat)
    requires Quiet(next) && (KeyInMemory(next.sh) ==> b.Some? && Session.Elapsed(b.value, checked) <= limit)
    ensures Anchored(WithAnchor(next, Young(b, checked - limit)))
  {
    SameKeys(next, Young(b, checked - limit));
    InvariantAtRest(WithAnchor(next, Young(b, checked - limit)));
  }
}
