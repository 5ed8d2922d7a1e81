/**
 The daemon's state as the object the code keeps: a vault manager with its key slots, and the
 session fields around it. Each method makes the writes the code makes, in its order, and is
 proved to be one step of the functions in module Session.
 */
module Daemon {
  import opened Results
  import opened EncStrings
  import opened Session
  import SessionRuns

  class VaultManager {
    var isUnlocked: bool
    var userKey: Option<SymmetricKey>
    var quickUnlockKey: Option<SymmetricKey>
    // Bumped by every wipe, so that a restore in flight can tell.
    var quickUnlockEpoch: nat
    // Bumped whenever an unlocked vault locks.
    var lockGeneration: nat

    constructor ()
      ensures !isUnlocked && userKey == None && quickUnlockKey == None
    {
      isUnlocked, userKey, quickUnlockKey, quickUnlockEpoch, lockGeneration := false, None, None, 0, 0;
    }

    method PurgeDecryptedState()
      modifies this
      ensures !isUnlocked && userKey == None && quickUnlockKey == old(quickUnlockKey)
      ensures quickUnlockEpoch == old(quickUnlockEpoch)
      ensures lockGeneration == old(lockGeneration) + if old(isUnlocked) then 1 else 0
    {
      if isUnlocked {
        lockGeneration := lockGeneration + 1;
      }
      isUnlocked := false;
      userKey := None;
    }

    method WipeQuickUnlock()
      modifies this
      ensures quickUnlockKey == None && quickUnlockEpoch == old(quickUnlockEpoch) + 1
      ensures isUnlocked == old(isUnlocked) && userKey == old(userKey) && lockGeneration == old(lockGeneration)
    {
      quickUnlockEpoch := quickUnlockEpoch + 1;
      quickUnlockKey := None;
    }

    method HardLock()
      modifies this
      ensures !isUnlocked && userKey == None && quickUnlockKey == None
      ensures quickUnlockEpoch == old(quickUnlockEpoch) + 1
      ensures lockGeneration == old(lockGeneration) + if old(isUnlocked) then 1 else 0
    {
      WipeQuickUnlock();
      PurgeDecryptedState();
    }

    method SoftLock() returns (retained: bool)
      modifies this
      ensures retained == old(userKey).Some?
      ensures !isUnlocked && userKey == None
      ensures quickUnlockKey == if old(userKey).Some? then old(userKey) else old(quickUnlockKey)
      ensures quickUnlockEpoch == old(quickUnlockEpoch)
      ensures lockGeneration == old(lockGeneration) + if old(isUnlocked) then 1 else 0
    {
      var taken := userKey;
      userKey := None;
      retained := taken.Some?;
      if retained || quickUnlockKey.None? {
        quickUnlockKey := taken;
      }
      PurgeDecryptedState();
    }

    method Unlock(key: SymmetricKey)
      modifies this
      ensures isUnlocked && userKey == Some(key)
      ensures quickUnlockKey == if old(quickUnlockKey).Some? then Some(key) else None
      ensures quickUnlockEpoch == old(quickUnlockEpoch) && lockGeneration == old(lockGeneration)
    {
      userKey := Some(key);
      if quickUnlockKey.Some? {
        quickUnlockKey := Some(key);
      }
      isUnlocked := true;
    }

    method QuickUnlockRestore(found: Restore) returns (ok: bool)
      modifies this
      ensures ok == (old(quickUnlockKey).Some? && found == Valid)
      ensures ok ==> isUnlocked && userKey == old(quickUnlockKey) && quickUnlockKey == old(quickUnlockKey)
      ensures !ok ==> isUnlocked == old(isUnlocked) && userKey == old(userKey)
      ensures !ok ==> quickUnlockKey == if found == Stale then None else old(quickUnlockKey)
      ensures lockGeneration == old(lockGeneration)
    {
      var epochBefore := quickUnlockEpoch;
      var key := quickUnlockKey;
      if key.None? || found == NoAccount {
        return false;
      }
      if found == Stale {
        WipeQuickUnlock();
        return false;
      }
      // Nothing comes between when a call is one step; module LockRaces lets other threads in.
      if quickUnlockEpoch != epochBefore {
        return false;
      }
      userKey := key;
      isUnlocked := true;
      return true;
    }
  }

  datatype QuickUnlockError = Disabled | AlreadyUnlocked | AuthUnavailable | HardLockedError | AuthDenied | RestoreFailed

  class DaemonState {
    const vault: VaultManager
    const cfg: Config
    var lastActivity: nat
    var autoLockDuration: nat
    var unlockedAt: Option<nat>
    var sessionAnchor: Option<nat>
    var quickUnlockFailures: nat
    var quickUnlockSetting: bool
    var lastBootDelta: Option<nat>

    ghost function View(): State
      reads this, vault
    {
      State(vault.isUnlocked, vault.userKey, vault.quickUnlockKey, sessionAnchor, unlockedAt, lastActivity,
            quickUnlockFailures, quickUnlockSetting, autoLockDuration, lastBootDelta)
    }

    constructor (cfg: Config, setting: bool, autoLock: nat, now: nat)
      ensures View() == Initial(setting, autoLock, now) && this.cfg == cfg
      ensures fresh(vault)
    {
      this.cfg := cfg;
      vault := new VaultManager();
      lastActivity, autoLockDuration := now, autoLock;
      unlockedAt, sessionAnchor, quickUnlockFailures := None, None, 0;
      quickUnlockSetting, lastBootDelta := setting, None;
    }

    method TouchActivity(now: nat)
      modifies this
      ensures View() == Touch(old(View()), now)
    {
      lastActivity := now;
    }

    method Lock()
      modifies this, vault
      ensures View() == Session.Lock(old(View()))
    {
      unlockedAt := None;
      sessionAnchor := None;
      quickUnlockFailures := 0;
      vault.HardLock();
    }

    method SoftLock()
      modifies this, vault
      ensures View() == Session.SoftLock(cfg, old(View()))
    {
      unlockedAt := None;
      if quickUnlockSetting && cfg.polkitBinary && cfg.policyRegistered {
        var _ := vault.SoftLock();
      } else {
        vault.HardLock();
      }
    }

    // `key` is what the password opened, if it was the right one.
    method Unlock(key: Option<SymmetricKey>, now: nat) returns (ok: bool)
      modifies this, vault
      ensures ok == key.Some?
      ensures ok ==> View().unlocked && View().userKey == key && View().anchor == Some(now) && View().unlockedAt == Some(now)
      ensures !ok ==> View() == old(View())
      ensures View() == Session.Unlock(old(View()), key, now)
    {
      if key.None? {
        return false;
      }
      vault.Unlock(key.value);
      unlockedAt := Some(now);
      sessionAnchor := Some(now);
      quickUnlockFailures := 0;
      TouchActivity(now);
      return true;
    }

    method PerformQuickUnlock(prompt: Prompt, found: Restore, now: nat) returns (r: Result<(), QuickUnlockError>)
      modifies this, vault
      ensures View() == QuickUnlock(cfg, old(View()), prompt, found, now)
      ensures r.Ok? <==> PromptShown(cfg, old(View())) && prompt == Authorized && found == Valid
      ensures r.Ok? ==> View().unlocked && View().userKey == old(View()).retained && View().anchor == old(View()).anchor
      ensures !old(quickUnlockSetting) ==> r == Err(Disabled)
      ensures PromptShown(cfg, old(View())) && prompt == Denied ==> r == Err(AuthDenied)
    {
      if !quickUnlockSetting {
        return Err(Disabled);
      }
      if vault.isUnlocked {
        return Err(AlreadyUnlocked);
      }
      if !cfg.polkitBinary || !cfg.policyRegistered {
        return Err(AuthUnavailable);
      }
      if vault.quickUnlockKey.None? {
        return Err(HardLockedError);
      }
      match prompt {
        case Authorized =>
        case Denied =>
          quickUnlockFailures := quickUnlockFailures + 1;
          if quickUnlockFailures >= MAX_QUICK_UNLOCK_FAILURES {
            vault.WipeQuickUnlock();
            quickUnlockFailures := 0;
          }
          return Err(AuthDenied);
        case Unavailable =>
          return Err(AuthUnavailable);
      }
      var restored := vault.QuickUnlockRestore(found);
      if !restored {
        return Err(RestoreFailed);
      }
      quickUnlockFailures := 0;
      unlockedAt := Some(now);
      TouchActivity(now);
      return Ok(());
    }

    method SetQuickUnlock(enabled: bool)
      modifies this, vault
      ensures View() == Session.SetQuickUnlock(old(View()), enabled)
    {
      quickUnlockSetting := enabled;
      if !enabled {
        vault.WipeQuickUnlock();
      }
    }

    method SyncWithClient(vaultLocked: bool, ok: bool, now: nat)
      modifies this, vault
      ensures View() == Session.Sync(old(View()), vaultLocked, ok, now)
    {
      if vaultLocked {
        vault.HardLock();
      }
      if ok {
        TouchActivity(now);
      }
    }

    method CreateSshKey(vaultLocked: bool)
      modifies this, vault
      ensures View() == Session.CreateSshKey(old(View()), vaultLocked)
    {
      if vault.userKey.Some? && vaultLocked {
        vault.HardLock();
      }
    }

    method RecordSignature(now: nat)
      modifies this
      ensures View() == AgentSign(old(View()), now)
    {
      if vault.isUnlocked {
        TouchActivity(now);
      }
    }

    // Answers whether it locked: just then a key went away or the idle timeout struck.
    method CheckAutoLock(now: nat) returns (locked: bool)
      modifies this, vault
      ensures View() == Session.CheckAutoLock(cfg, old(View()), now)
      ensures !locked ==> View() == old(View())
      ensures locked ==> !View().unlocked && KeyPresent(old(View()))
    {
      if Expired(sessionAnchor, cfg.maxLifetime, now) && (vault.isUnlocked || vault.quickUnlockKey.Some?) {
        Lock();
        return true;
      }
      if vault.isUnlocked {
        if Expired(unlockedAt, cfg.maxLifetime, now) {
          Lock();
          return true;
        }
        if autoLockDuration > 0 && Elapsed(lastActivity, now) > autoLockDuration {
          SoftLock();
          return true;
        }
      }
      return false;
    }

    method CheckScreenLock(signal: LockSignal) returns (locked: bool)
      modifies this, vault
      ensures View() == Session.CheckScreenLock(cfg, old(View()), signal)
      ensures !locked ==> View() == old(View())
      ensures locked ==> !View().unlocked && signal != NoSignal
    {
      if vault.isUnlocked || vault.quickUnlockKey.Some? {
        match signal {
          case NoSignal =>
          case Sleep =>
            Lock();
            return true;
          case Screen =>
            if vault.isUnlocked {
              SoftLock();
              return true;
            }
        }
      }
      return false;
    }

    method CheckSuspendDrift(delta: Option<nat>) returns (wiped: bool)
      modifies this, vault
      ensures View() == Session.CheckSuspendDrift(old(View()), delta)
      ensures wiped == SuspendHappened(old(lastBootDelta), delta)
      ensures wiped ==> !KeyPresent(View())
    {
      var prev := lastBootDelta;
      lastBootDelta := delta;
      if !SuspendHappened(prev, delta) {
        return false;
      }
      Lock();
      return true;
    }

    // One round of the watchdog loop: the suspend clock, then the timeouts, then the screen.
    method WatchdogPass(delta: Option<nat>, now: nat, signal: LockSignal)
      modifies this, vault
      ensures View() == Session.CheckScreenLock(cfg, Session.CheckAutoLock(cfg, Session.CheckSuspendDrift(old(View()), delta), now), signal)
    {
      var _ := CheckSuspendDrift(delta);
      var _ := CheckAutoLock(now);
      var _ := CheckScreenLock(signal);
    }

    // The arms that change the session.
    method Act(r: Request, w: World, now: nat)
      modifies this, vault
      ensures View() == Session.Act(cfg, old(View()), r, w, now)
    {
      match r.action {
        case LockVault => Lock();
        case Stop => Lock();
        case UnlockVault =>
          var _ := Unlock(w.key, now);
        case QuickUnlockVault =>
          var _ := PerformQuickUnlock(w.prompt, w.restore, now);
        case WipeKey => vault.WipeQuickUnlock();
        case SetQuickUnlockSetting => SetQuickUnlock(r.enabled);
        case SyncVault => SyncWithClient(w.renewalLocks, w.syncOk, now);
        case SshKeyCreate => CreateSshKey(w.renewalLocks);
        case SetAutoLock => autoLockDuration := r.autoLock;
        case _ =>
      }
    }

    method HandleClient(r: Request, w: World, now: nat) returns (refused: bool)
      modifies this, vault
      ensures View() == Session.HandleClient(cfg, old(View()), r, w, now)
      ensures refused == Refused(r, old(View()))
    {
      var isUnlocked := vault.isUnlocked;
      if Privileged(r, isUnlocked) && !isUnlocked {
        return true;
      }
      if ShouldTouch(r) {
        TouchActivity(now);
      }
      Act(r, w, now);
      return false;
    }

    method TakeStep(e: SessionRuns.Entry)
      modifies this, vault
      ensures View() == SessionRuns.Step(cfg, old(View()), e)
    {
      match e.event {
        case Client(r, w) =>
          var _ := HandleClient(r, w, e.now);
        case AgentQuickUnlock(prompt, found) =>
          var _ := PerformQuickUnlock(prompt, found, e.now);
        case AgentSigned => RecordSignature(e.now);
        case SuspendTick(delta) =>
          var _ := CheckSuspendDrift(delta);
        case AutoLockTick =>
          var _ := CheckAutoLock(e.now);
        case ScreenTick(signal) =>
          var _ := CheckScreenLock(signal);
      }
    }

    // Requests, prompts and watchdog rounds in whatever order they come.
    method Serve(entries: seq<SessionRuns.Entry>)
      modifies this, vault
      ensures View() == SessionRuns.Run(cfg, old(View()), entries)
    {
      ghost var start := View();
      for i := 0 to |entries|
        invariant View() == SessionRuns.Run(cfg, start, entries[..i])
      {
        TakeStep(entries[i]);
        assert entries[..i + 1][..i] == entries[..i];
      }
      assert entries[..|entries|] == entries;
    }
  }

  // A daemon started afresh keeps the invariant of module SessionRuns whatever it is asked.
  method RunDaemon(cfg: Config, setting: bool, autoLock: nat, now: nat, entries: seq<SessionRuns.Entry>)
    returns (d: DaemonState)
    ensures d.cfg == cfg && d.View() == SessionRuns.Run(cfg, Initial(setting, autoLock, now), entries)
    ensures SessionRuns.Inv(cfg, Initial(setting, autoLock, now), entries)
  {
    d := new DaemonState(cfg, setting, autoLock, now);
    d.Serve(entries);
    SessionRuns.RunKeepsInv(cfg, Initial(setting, autoLock, now), entries);
  }
}
