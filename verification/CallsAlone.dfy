/**
 A call that no other thread interrupts: its writes one by one come to the atomic operation of
 module Session, and leave nobody holding the guard or the prompt.
 */
module CallsAlone {
  import opened Results
  import opened EncStrings
  import opened LockRaces
  import Session

  // The session's state as the interleaved model sees it, at rest.
  function Seen(s: Session.State, epoch: nat): Shared {
    Shared(s.unlocked, s.userKey.Some?, s.retained.Some?, epoch, s.anchor.Some?, s.unlockedAt.Some?, s.failures, None, None)
  }

  // `n` moves of one thread.
  function Alone(s: Shared, pc: Pc, t: nat, c: Choice, n: nat): (Shared, Pc)
    decreases n
  {
    if n == 0 then (s, pc)
    else
      var r := Advance(s, pc, t, c);
      Alone(r.0, r.1, t, c, n - 1)
  }

  lemma LockAlone(s: Session.State, epoch: nat, t: nat, c: Choice)
    requires c.call == CallLock
    ensures Alone(Seen(s, epoch), Idle, t, c, 8) == (Seen(Session.Lock(s), epoch + 1), Idle)
  {
  }

  lemma HardLockAlone(s: Session.State, epoch: nat, t: nat, c: Choice)
    requires c.call == CallHardLock
    ensures Alone(Seen(s, epoch), Idle, t, c, 5) == (Seen(Session.VaultHardLock(s), epoch + 1), Idle)
  {
  }

  lemma WipeAlone(s: Session.State, epoch: nat, t: nat, c: Choice)
    requires c.call == CallWipe
    ensures Alone(Seen(s, epoch), Idle, t, c, 3) == (Seen(Session.WipeQuickUnlock(s), epoch + 1), Idle)
  {
  }

  lemma UnlockAlone(s: Session.State, epoch: nat, k: SymmetricKey, now: nat, t: nat, c: Choice)
    requires c.call == CallUnlock
    ensures Alone(Seen(s, epoch), Idle, t, c, 6) == (Seen(Session.Unlock(s, Some(k), now), epoch), Idle)
  {
  }

  // The soft lock, by what it finds out about quick unlock.
  lemma SoftLockAlone(cfg: Session.Config, s: Session.State, epoch: nat, t: nat, c: Choice)
    requires c.call == CallSoftLock && c.usable == Session.Usable(cfg, s)
    ensures c.usable ==> Alone(Seen(s, epoch), Idle, t, c, 6) == (Seen(Session.SoftLock(cfg, s), epoch), Idle)
    ensures !c.usable ==> Alone(Seen(s, epoch), Idle, t, c, 7) == (Seen(Session.SoftLock(cfg, s), epoch + 1), Idle)
  {
    hide AdvanceQuick;
  }

  // The quick unlock, by the answer to its prompt and by what the check finds; a new epoch comes with
  // every wipe and with nothing else.
  lemma QuickUnlockAlone(cfg: Session.Config, s: Session.State, epoch: nat, now: nat, t: nat, c: Choice)
    requires c.call == CallQuickUnlock && c.prompt == Session.Authorized && Session.PromptShown(cfg, s)
    ensures var after := Session.QuickUnlock(cfg, s, c.prompt, c.restore, now);
            match c.restore
            case Valid => Alone(Seen(s, epoch), Idle, t, c, 9) == (Seen(after, epoch), Idle)
            case Stale => Alone(Seen(s, epoch), Idle, t, c, 7) == (Seen(after, epoch + 1), Idle)
            case NoAccount => Alone(Seen(s, epoch), Idle, t, c, 5) == (Seen(after, epoch), Idle)
  {
    hide AdvanceHard;
    hide AdvanceSoft;
  }

  lemma DeniedAlone(cfg: Session.Config, s: Session.State, epoch: nat, now: nat, t: nat, c: Choice)
    requires c.call == CallQuickUnlock && c.prompt != Session.Authorized && Session.PromptShown(cfg, s)
    ensures var after := Session.QuickUnlock(cfg, s, c.prompt, c.restore, now);
            if c.prompt == Session.Denied && s.failures >= 2
            then Alone(Seen(s, epoch), Idle, t, c, 6) == (Seen(after, epoch + 1), Idle)
            else Alone(Seen(s, epoch), Idle, t, c, 3) == (Seen(after, epoch), Idle)
  {
    hide AdvanceHard;
    hide AdvanceSoft;
  }

  // Moves of one thread in a system are its moves alone, and leave the others where they are.
  lemma {:induction false} AloneInSystem(sys: System, t: nat, c: Choice, n: nat)
    ensures var moves := seq(n, i => Move(t, c));
            var r, end := Alone(sys.sh, PcOf(sys, t), t, c, n), Run(sys, moves);
            end.sh == r.0 && PcOf(end, t) == r.1 && forall u :: u != t ==> PcOf(end, u) == PcOf(sys, u)
    decreases n
  {
    if n > 0 {
      var m := Move(t, c);
      var moves, rest := seq(n, i => m), seq(n - 1, i => m);
      AloneInSystem(Step(sys, m), t, c, n - 1);
      FirstMove(sys, m, rest);
      assert moves == [m] + rest;
    }
  }

  lemma {:induction false} FirstMove(sys: System, m: Move, rest: seq<Move>)
    ensures Run(sys, [m] + rest) == Run(Step(sys, m), rest)
    decreases |rest|
  {
    if rest == [] {
      assert ([m] + rest)[..0] == [] && ([m] + rest)[0] == m;
      assert Run(sys, []) == sys;
    } else {
      var init := rest[..|rest| - 1];
      FirstMove(sys, m, init);
      assert ([m] + rest)[..|rest|] == [m] + init;
    }
  }
}
