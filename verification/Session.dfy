/**
 The daemon's session state as a value, and what each operation does to it.

 Every operation is one atomic step here; module LockRaces takes them apart. A clock
 reading is passed in as `now`, the outcome of a prompt or of the network as an input.
 */
module Session {
  import opened Results
  import opened EncStrings

  const MAX_QUICK_UNLOCK_FAILURES := 3

  // What is fixed when the daemon starts.
  datatype Config = Config(polkitBinary: bool, policyRegistered: bool, maxLifetime: nat)

  datatype State = State(
    unlocked: bool, userKey: Option<SymmetricKey>, retained: Option<SymmetricKey>,
    anchor: Option<nat>, unlockedAt: Option<nat>, lastActivity: nat, failures: nat,
    setting: bool, autoLock: nat, bootDelta: Option<nat>)

  datatype LockSignal = NoSignal | Screen | Sleep

  datatype Prompt = Authorized | Denied | Unavailable

  // What checking a retained key against the stored account can find.
  datatype Restore = Valid | Stale | NoAccount

  function Initial(setting: bool, autoLock: nat, now: nat): State {
    State(false, None, None, None, None, now, 0, setting, autoLock, None)
  }

  function Elapsed(since: nat, now: nat): nat {
    if now >= since then now - since else 0
  }

  predicate Usable(cfg: Config, s: State) {
    s.setting && cfg.polkitBinary && cfg.policyRegistered
  }

  predicate KeyPresent(s: State) {
    s.unlocked || s.retained.Some?
  }

  // ----- the vault -----

  function VaultHardLock(s: State): State {
    s.(unlocked := false, userKey := None, retained := None)
  }

  // The user key moves to the retained slot; with nothing to move an earlier key stays.
  function VaultSoftLock(s: State): State {
    s.(unlocked := false, userKey := None, retained := if s.userKey.Some? then s.userKey else s.retained)
  }

  function WipeQuickUnlock(s: State): State {
    s.(retained := None)
  }

  // A key retained earlier is refreshed with the one now in use.
  function VaultUnlock(s: State, key: SymmetricKey): State {
    s.(unlocked := true, userKey := Some(key), retained := if s.retained.Some? then Some(key) else None)
  }

  // A stale key is wiped; a valid one opens the vault and stays in its slot.
  function VaultRestore(s: State, restore: Restore): State {
    if s.retained.None? then s
    else
      match restore
      case Valid => s.(unlocked := true, userKey := s.retained)
      case Stale => WipeQuickUnlock(s)
      case NoAccount => s
  }

  // ----- the daemon -----

  function Touch(s: State, now: nat): State {
    s.(lastActivity := now)
  }

  function Lock(s: State): State {
    VaultHardLock(s.(unlockedAt := None, anchor := None, failures := 0))
  }

  function SoftLock(cfg: Config, s: State): State {
    var t := s.(unlockedAt := None);
    if Usable(cfg, s) then VaultSoftLock(t) else VaultHardLock(t)
  }

  // `key` is the key the password opened, if it was the right one.
  function Unlock(s: State, key: Option<SymmetricKey>, now: nat): State {
    match key
    case None => s
    case Some(k) => Touch(VaultUnlock(s, k).(unlockedAt := Some(now), anchor := Some(now), failures := 0), now)
  }

  predicate PromptShown(cfg: Config, s: State) {
    Usable(cfg, s) && !s.unlocked && s.retained.Some?
  }

  // Only the third denial wipes; a quick unlock leaves the session anchor alone.
  function QuickUnlock(cfg: Config, s: State, prompt: Prompt, restore: Restore, now: nat): State {
    if !PromptShown(cfg, s) then s
    else
      match prompt
      case Unavailable => s
      case Denied =>
        if s.failures + 1 >= MAX_QUICK_UNLOCK_FAILURES then WipeQuickUnlock(s).(failures := 0)
        else s.(failures := s.failures + 1)
      case Authorized =>
        var t := VaultRestore(s, restore);
        if restore == Valid then Touch(t.(failures := 0, unlockedAt := Some(now)), now) else t
  }

  function SetQuickUnlock(s: State, enabled: bool): State {
    var t := s.(setting := enabled);
    if enabled then t else WipeQuickUnlock(t)
  }

  // Renewing the server session may lock the vault behind the daemon's back, and that neither
  // clears the anchor nor the strikes.
  function Renew(s: State, vaultLocked: bool): State {
    if vaultLocked then VaultHardLock(s) else s
  }

  // A sync that succeeds counts as activity.
  function Sync(s: State, vaultLocked: bool, ok: bool, now: nat): State {
    var t := Renew(s, vaultLocked);
    if ok then Touch(t, now) else t
  }

  // Creating a key item takes the user key, and renews the session as a sync does.
  function CreateSshKey(s: State, vaultLocked: bool): State {
    if s.userKey.Some? then Renew(s, vaultLocked) else s
  }

  // The agent signs only for an unlocked vault; a completed signature counts as activity.
  function AgentSign(s: State, now: nat): State {
    if s.unlocked then Touch(s, now) else s
  }

  predicate Expired(since: Option<nat>, limit: nat, now: nat) {
    since.Some? && limit > 0 && Elapsed(since.value, now) > limit
  }

  function CheckAutoLock(cfg: Config, s: State, now: nat): State {
    if Expired(s.anchor, cfg.maxLifetime, now) && KeyPresent(s) then Lock(s)
    else if s.unlocked && Expired(s.unlockedAt, cfg.maxLifetime, now) then Lock(s)
    else if s.unlocked && s.autoLock > 0 && Elapsed(s.lastActivity, now) > s.autoLock then SoftLock(cfg, s)
    else s
  }

  function CheckScreenLock(cfg: Config, s: State, signal: LockSignal): State {
    if !KeyPresent(s) then s
    else if signal == Sleep then Lock(s)
    else if signal == Screen && s.unlocked then SoftLock(cfg, s)
    else s
  }

  predicate SuspendHappened(prev: Option<nat>, current: Option<nat>) {
    prev.Some? && current.Some? && current.value > prev.value + 1
  }

  function CheckSuspendDrift(s: State, delta: Option<nat>): State {
    var t := s.(bootDelta := delta);
    if SuspendHappened(s.bootDelta, delta) then Lock(t) else t
  }

  // ----- requests -----

  // The action names a client may send; anything else is `Unknown`.
  datatype Action =
    | Ping | Stop | Status | SshAgentApply | SshAgentStatus | SshAgentPending | SshAgentReply
    | UnlockVault | QuickUnlockVault | WipeKey | SetQuickUnlockSetting | LockVault | SyncVault
    | List | Search | SshKeyCreate | GetItem | GetSshKey | GetAttachmentKey | Totp | Copy
    | GeneratePassword | SetAutoLock | Unknown

  // `touch` is the client's override, `hasQuery` whether a query or id came along; `enabled`
  // and `autoLock` are the arguments of the two setting actions.
  datatype Request = Request(action: Action, touch: Option<bool>, hasQuery: bool, enabled: bool, autoLock: nat)

  // The outcomes of what a request may set off outside the daemon.
  datatype World = World(key: Option<SymmetricKey>, prompt: Prompt, restore: Restore, renewalLocks: bool, syncOk: bool)

  predicate ShouldTouch(r: Request) {
    if r.touch.Some? then r.touch.value
    else
      match r.action
      case SyncVault | List | Search | SshKeyCreate | GetItem | GetSshKey | GetAttachmentKey | Copy | GeneratePassword => true
      case _ => false
  }

  predicate Privileged(r: Request, unlocked: bool) {
    match r.action
    case List | Search | GetItem | GetSshKey | GetAttachmentKey | SshKeyCreate | SyncVault => true
    case Totp => r.hasQuery
    case Stop | SetAutoLock => unlocked
    case _ => false
  }

  // A privileged request to a locked vault is refused before it counts as activity.
  predicate Refused(r: Request, s: State) {
    Privileged(r, s.unlocked) && !s.unlocked
  }

  // Exactly the requests outside the gate's list for a locked vault are never refused, stopping and
  // setting the timeout among them.
  lemma NeverRefused(r: Request)
    ensures (forall s: State :: !Refused(r, s)) <==> !Privileged(r, false)
    ensures r.action in {Stop, SetAutoLock} ==> !Privileged(r, false)
  {
    if Privileged(r, false) {
      assert Refused(r, Initial(false, 0, 0));
    }
  }

  function Act(cfg: Config, s: State, r: Request, w: World, now: nat): State {
    match r.action
    case LockVault | Stop => Lock(s)
    case UnlockVault => Unlock(s, w.key, now)
    case QuickUnlockVault => QuickUnlock(cfg, s, w.prompt, w.restore, now)
    case WipeKey => WipeQuickUnlock(s)
    case SetQuickUnlockSetting => SetQuickUnlock(s, r.enabled)
    case SyncVault => Sync(s, w.renewalLocks, w.syncOk, now)
    case SshKeyCreate => CreateSshKey(s, w.renewalLocks)
    case SetAutoLock => s.(autoLock := r.autoLock)
    case _ => s
  }

  function HandleClient(cfg: Config, s: State, r: Request, w: World, now: nat): State {
    if Refused(r, s) then s else Act(cfg, if ShouldTouch(r) then Touch(s, now) else s, r, w, now)
  }

  // ----- the suspend clock -----

  const NANOS := 1_000_000_000

  // Boot time less monotonic time in whole seconds, both cut to seconds first: boot time runs
  // ahead by the time spent suspended.
  function BootDelta(monotonic: nat, suspended: nat): nat {
    (monotonic + suspended) / NANOS - monotonic / NANOS
  }

  lemma BootDeltaRange(monotonic: nat, suspended: nat)
    ensures suspended / NANOS <= BootDelta(monotonic, suspended) <= suspended / NANOS + 1
    ensures suspended % NANOS == 0 ==> BootDelta(monotonic, suspended) == suspended / NANOS
  {
  }

  // No time spent suspended between two samples is never reported.
  lemma NoSuspendNoReport(m0: nat, m1: nat, suspended: nat)
    ensures !SuspendHappened(Some(BootDelta(m0, suspended)), Some(BootDelta(m1, suspended)))
  {
    BootDeltaRange(m0, suspended);
    BootDeltaRange(m1, suspended);
  }

  // Two samples, taken at monotonic times m0 and m1, with `slept` suspended in between.
  predicate Reported(m0: nat, m1: nat, before: nat, slept: nat) {
    SuspendHappened(Some(BootDelta(m0, before)), Some(BootDelta(m1, before + slept)))
  }

  // A suspension is reported whatever the clock readings exactly when it lasts one
  // nanosecond less than three seconds, or longer.
  lemma LongSuspendReported(slept: nat)
    ensures (forall m0: nat, m1: nat, before: nat :: m0 <= m1 ==> Reported(m0, m1, before, slept)) <==> slept >= 3 * NANOS - 1
  {
    if slept >= 3 * NANOS - 1 {
      forall m0: nat, m1: nat, before: nat | m0 <= m1 ensures Reported(m0, m1, before, slept) {
        BootDeltaRange(m0, before);
        BootDeltaRange(m1, before + slept);
      }
    } else {
      assert BootDelta(NANOS - 1, 1) == 1;
      assert BootDelta(NANOS, 1 + slept) <= 2;
      assert !Reported(NANOS - 1, NANOS, 1, slept);
    }
  }
}
