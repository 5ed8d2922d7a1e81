/** What each operation and each request does to the session, action by action and field by field. */
module SessionLaws {
  import opened Results
  import opened EncStrings
  import opened Session

  // ----- opening -----

  // The right password opens the vault, starts the session and its clock anew, and refreshes an
  // occupied slot.
  lemma PasswordOpens(s: State, k: SymmetricKey, now: nat)
    ensures Unlock(s, Some(k), now)
         == State(true, Some(k), if s.retained.Some? then Some(k) else None, Some(now), Some(now), now, 0,
                  s.setting, s.autoLock, s.bootDelta)
  {
  }

  lemma WrongPasswordChangesNothing(s: State, now: nat)
    ensures Unlock(s, None, now) == s
  {
  }

  // An authorised prompt over a valid retained key opens the vault with it; the session anchor stays.
  lemma PromptOpens(cfg: Config, s: State, k: SymmetricKey, now: nat)
    requires s.setting && cfg.polkitBinary && cfg.policyRegistered && !s.unlocked && s.retained == Some(k)
    ensures QuickUnlock(cfg, s, Authorized, Valid, now)
         == State(true, Some(k), Some(k), s.anchor, Some(now), now, 0, s.setting, s.autoLock, s.bootDelta)
  {
  }

  // Every other prompt leaves the vault locked: a stale key and a third denial lose the slot, the
  // other denials count, and the rest changes nothing.
  lemma PromptFails(cfg: Config, s: State, prompt: Prompt, restore: Restore, now: nat)
    requires !(prompt == Authorized && restore == Valid)
    ensures var shown := s.setting && cfg.polkitBinary && cfg.policyRegistered && !s.unlocked && s.retained.Some?;
            QuickUnlock(cfg, s, prompt, restore, now) ==
              if shown && prompt == Denied then
                if s.failures >= 2 then s.(retained := None, failures := 0) else s.(failures := s.failures + 1)
              else if shown && prompt == Authorized && restore == Stale then s.(retained := None)
              else s
  {
  }

  lemma NoPromptChangesNothing(cfg: Config, s: State, prompt: Prompt, restore: Restore, now: nat)
    requires !s.setting || !cfg.polkitBinary || !cfg.policyRegistered || s.unlocked || s.retained.None?
    ensures QuickUnlock(cfg, s, prompt, restore, now) == s
  {
  }

  // ----- locking -----

  lemma LockClears(s: State)
    ensures Lock(s) == State(false, None, None, None, None, s.lastActivity, 0, s.setting, s.autoLock, s.bootDelta)
  {
  }

  // A soft lock keeps anchor and strikes, and moves the key to the slot where a prompt could be shown.
  lemma SoftLockMoves(cfg: Config, s: State)
    ensures var kept := if !(s.setting && cfg.polkitBinary && cfg.policyRegistered) then None
                        else if s.userKey.Some? then s.userKey else s.retained;
            SoftLock(cfg, s) == State(false, None, kept, s.anchor, None, s.lastActivity, s.failures, s.setting, s.autoLock, s.bootDelta)
  {
  }

  lemma SettingIs(s: State, enabled: bool)
    ensures SetQuickUnlock(s, enabled) == s.(setting := enabled, retained := if enabled then s.retained else None)
  {
  }

  // The check locks hard when the session or the unlock is older than the lifetime, softly when the
  // idle timeout has passed, and otherwise leaves everything as it is; a limit of nought is none.
  lemma CheckExactly(cfg: Config, s: State, now: nat)
    ensures var tooOld := cfg.maxLifetime > 0
              && ((s.anchor.Some? && now > s.anchor.value + cfg.maxLifetime && (s.unlocked || s.retained.Some?))
                  || (s.unlocked && s.unlockedAt.Some? && now > s.unlockedAt.value + cfg.maxLifetime));
            var idle := s.unlocked && s.autoLock > 0 && now > s.lastActivity + s.autoLock;
            CheckAutoLock(cfg, s, now) == if tooOld then Lock(s) else if idle then SoftLock(cfg, s) else s
  {
  }

  lemma ScreenExactly(cfg: Config, s: State)
    ensures CheckScreenLock(cfg, s, NoSignal) == s
    ensures CheckScreenLock(cfg, s, Screen) == if s.unlocked then SoftLock(cfg, s) else s
    ensures CheckScreenLock(cfg, s, Sleep) == if s.unlocked || s.retained.Some? then Lock(s) else s
  {
  }

  // A first sample, a failed one and a clock that runs back are no suspension.
  lemma SuspendExactly(s: State, delta: Option<nat>)
    ensures CheckSuspendDrift(s, delta) ==
              if s.bootDelta.Some? && delta.Some? && delta.value >= s.bootDelta.value + 2
              then Lock(s.(bootDelta := delta)) else s.(bootDelta := delta)
  {
  }

  // ----- requests -----

  // A locked vault refuses just these, and an unlocked one nothing.
  lemma RefusedExactly(cfg: Config, s: State, r: Request, w: World, now: nat)
    ensures Refused(r, s) <==>
              !s.unlocked && (r.action in {List, Search, GetItem, GetSshKey, GetAttachmentKey, SshKeyCreate, SyncVault}
                              || (r.action == Totp && r.hasQuery))
    ensures Refused(r, s) ==> HandleClient(cfg, s, r, w, now) == s
  {
  }

  // Asking how things are is no activity, and neither is anything the agent's interface is asked.
  lemma QuietActions(cfg: Config, s: State, r: Request, w: World, now: nat)
    requires r.touch.None?
    requires r.action in {Ping, Status, SshAgentStatus, SshAgentPending, SshAgentApply, SshAgentReply, Totp, Unknown}
    ensures HandleClient(cfg, s, r, w, now) == s
  {
  }

  // Using the vault, or the tools beside it, is.
  lemma BusyActions(cfg: Config, s: State, r: Request, w: World, now: nat)
    requires r.touch.None?
    requires r.action in {Copy, GeneratePassword}
             || (s.unlocked && r.action in {List, Search, GetItem, GetSshKey, GetAttachmentKey, SyncVault, SshKeyCreate})
    ensures HandleClient(cfg, s, r, w, now).lastActivity == now
  {
  }

  // The actions that change the session are activity only where they open the vault.
  lemma ChangingActions(cfg: Config, s: State, r: Request, w: World, now: nat)
    requires r.touch.None?
    requires r.action in {Stop, LockVault, WipeKey, SetQuickUnlockSetting, SetAutoLock, UnlockVault, QuickUnlockVault}
    ensures HandleClient(cfg, s, r, w, now).lastActivity == s.lastActivity
            || (HandleClient(cfg, s, r, w, now).lastActivity == now && HandleClient(cfg, s, r, w, now).unlocked
                && r.action in {UnlockVault, QuickUnlockVault})
  {
  }

  // The client's own word goes first, both ways; only opening the vault or a sync that succeeds is
  // activity all the same.
  lemma TouchOverrides(cfg: Config, s: State, r: Request, w: World, now: nat)
    requires !(!s.unlocked && (r.action in {List, Search, GetItem, GetSshKey, GetAttachmentKey, SshKeyCreate, SyncVault}
                               || (r.action == Totp && r.hasQuery)))
    ensures r.touch == Some(true) ==> HandleClient(cfg, s, r, w, now).lastActivity == now
    ensures r.touch == Some(false) && r.action !in {UnlockVault, QuickUnlockVault} && !(r.action == SyncVault && w.syncOk) ==>
              HandleClient(cfg, s, r, w, now).lastActivity == s.lastActivity
  {
  }

  // What every action leaves besides the time of the last activity.
  lemma ActionsDo(cfg: Config, s: State, r: Request, w: World, now: nat)
    requires r.touch.None?
    ensures var t := HandleClient(cfg, s, r, w, now);
            match r.action
            case Stop | LockVault => t == Lock(s)
            case UnlockVault => t == Unlock(s, w.key, now)
            case QuickUnlockVault => t == QuickUnlock(cfg, s, w.prompt, w.restore, now)
            case WipeKey => t == s.(retained := None)
            case SetQuickUnlockSetting => t == SetQuickUnlock(s, r.enabled)
            case SetAutoLock => t == s.(autoLock := r.autoLock)
            case SyncVault | SshKeyCreate =>
              t == if !s.unlocked then s
                   else if w.renewalLocks && (r.action == SyncVault || s.userKey.Some?)
                   then s.(unlocked := false, userKey := None, retained := None, lastActivity := now)
                   else s.(lastActivity := now)
            case _ => t == s || t == s.(lastActivity := now)
  {
  }

  // The story of the idle lock: a ping postpones nothing.
  lemma PingPostponesNothing(cfg: Config, k: SymmetricKey)
    requires cfg.maxLifetime == 43200
    ensures var started := Unlock(Initial(true, 600, 0), Some(k), 0);
            var pinged := HandleClient(cfg, started, Request(Ping, None, false, false, 0),
                                       World(None, Denied, Stale, false, false), 500);
            started.unlocked && !CheckAutoLock(cfg, pinged, 700).unlocked
  {
  }
}
