/** What holds over whole runs of the daemon: the ceiling, the strikes, the idle lock, the phases. */
module SessionRuns {
  import opened Results
  import opened EncStrings
  import opened Session

  datatype Event =
    | Client(request: Request, world: World)
    | AgentQuickUnlock(prompt: Prompt, restore: Restore)
    | AgentSigned
    | SuspendTick(delta: Option<nat>)
    | AutoLockTick
    | ScreenTick(signal: LockSignal)

  datatype Entry = Entry(now: nat, event: Event)

  function Step(cfg: Config, s: State, e: Entry): State {
    match e.event
    case Client(r, w) => HandleClient(cfg, s, r, w, e.now)
    case AgentQuickUnlock(p, r) => QuickUnlock(cfg, s, p, r, e.now)
    case AgentSigned => AgentSign(s, e.now)
    case SuspendTick(delta) => CheckSuspendDrift(s, delta)
    case AutoLockTick => CheckAutoLock(cfg, s, e.now)
    case ScreenTick(signal) => CheckScreenLock(cfg, s, signal)
  }

  function Run(cfg: Config, start: State, entries: seq<Entry>): State {
    if entries == [] then start
    else Step(cfg, Run(cfg, start, entries[..|entries| - 1]), entries[|entries| - 1])
  }

  predicate Fresh(s: State) {
    !s.unlocked && s.userKey.None? && s.retained.None? && s.anchor.None? && s.unlockedAt.None? && s.failures == 0
  }

  // ----- what happened in a run, read off its entries -----

  // The key a master password opened in this entry.
  function MasterKey(e: Entry): Option<SymmetricKey> {
    if e.event.Client? && e.event.request.action == UnlockVault then e.event.world.key else None
  }

  // A prompt for a quick unlock asked for in this entry, answered.
  function Asked(e: Entry): Option<(Prompt, Restore)> {
    match e.event
    case Client(r, w) => if r.action == QuickUnlockVault then Some((w.prompt, w.restore)) else None
    case AgentQuickUnlock(p, r) => Some((p, r))
    case _ => None
  }

  predicate ShownAndAnswered(cfg: Config, s: State, e: Entry, prompt: Prompt) {
    Asked(e).Some? && PromptShown(cfg, s) && Asked(e).value.0 == prompt
  }

  predicate QuickUnlocked(cfg: Config, s: State, e: Entry) {
    ShownAndAnswered(cfg, s, e, Authorized) && Asked(e).value.1 == Valid
  }

  function LastMasterKey(entries: seq<Entry>): Option<SymmetricKey> {
    if entries == [] then None
    else
      var k := MasterKey(entries[|entries| - 1]);
      if k.Some? then k else LastMasterKey(entries[..|entries| - 1])
  }

  function LastMasterTime(entries: seq<Entry>): Option<nat> {
    if entries == [] then None
    else
      var e := entries[|entries| - 1];
      if MasterKey(e).Some? then Some(e.now) else LastMasterTime(entries[..|entries| - 1])
  }

  // Whether an entry counts as user activity in the state it meets.
  predicate Touches(cfg: Config, s: State, e: Entry) {
    || MasterKey(e).Some?
    || QuickUnlocked(cfg, s, e)
    || (e.event.AgentSigned? && s.unlocked)
    || (e.event.Client? && var r := e.event.request;
        !Refused(r, s) && (ShouldTouch(r) || (r.action == SyncVault && e.event.world.syncOk)))
  }

  function LastActivity(cfg: Config, start: State, entries: seq<Entry>): nat {
    if entries == [] then start.lastActivity
    else
      var before, e := entries[..|entries| - 1], entries[|entries| - 1];
      if Touches(cfg, Run(cfg, start, before), e) then e.now else LastActivity(cfg, start, before)
  }

  // The daemon's own hard locks, which also reset the strikes: by request, by the suspend clock,
  // by the session ceiling, on going to sleep.
  predicate LocksHard(cfg: Config, s: State, e: Entry) {
    match e.event
    case Client(r, _) => r.action == LockVault || r.action == Stop
    case AgentQuickUnlock(_, _) => false
    case AgentSigned => false
    case SuspendTick(delta) => SuspendHappened(s.bootDelta, delta)
    case AutoLockTick =>
      (KeyPresent(s) && Expired(s.anchor, cfg.maxLifetime, e.now)) || (s.unlocked && Expired(s.unlockedAt, cfg.maxLifetime, e.now))
    case ScreenTick(signal) => KeyPresent(s) && signal == Sleep
  }

  // A renewal of the server session that locks the vault.
  predicate FailsRenewal(s: State, e: Entry) {
    e.event.Client? && !Refused(e.event.request, s) && e.event.world.renewalLocks
    && (e.event.request.action == SyncVault || (e.event.request.action == SshKeyCreate && s.userKey.Some?))
  }

  // An idle timeout or a locked screen, with the vault open.
  predicate LocksSoftly(cfg: Config, s: State, e: Entry) {
    s.unlocked && !LocksHard(cfg, s, e)
    && match e.event
       case AutoLockTick => s.autoLock > 0 && Elapsed(s.lastActivity, e.now) > s.autoLock
       case ScreenTick(signal) => signal == Screen
       case _ => false
  }

  // Every way of locking that retains nothing; a soft lock is one when quick unlock cannot work.
  predicate LocksFully(cfg: Config, s: State, e: Entry) {
    LocksHard(cfg, s, e) || FailsRenewal(s, e) || (LocksSoftly(cfg, s, e) && !Usable(cfg, s))
  }

  // Denied prompts since the last hard lock, master unlock, quick unlock or strike wipe.
  function Denials(cfg: Config, start: State, entries: seq<Entry>): nat {
    if entries == [] then 0
    else
      var before, e := entries[..|entries| - 1], entries[|entries| - 1];
      var s, n := Run(cfg, start, before), Denials(cfg, start, before);
      if LocksHard(cfg, s, e) || MasterKey(e).Some? || QuickUnlocked(cfg, s, e) then 0
      else if ShownAndAnswered(cfg, s, e, Denied) then (if n == 2 then 0 else n + 1)
      else n
  }

  // ----- the invariant of every run -----

  // The state agrees with what happened: the last key a master password opened and when,
  // the denials that count, and the last activity.
  ghost predicate Agrees(cfg: Config, s: State, key: Option<SymmetricKey>, at: Option<nat>, denials: nat, last: nat) {
    && (s.unlocked <==> s.userKey.Some?)
    && (s.userKey.Some? ==> s.userKey == key)
    && (s.retained.Some? ==> s.retained == key && Usable(cfg, s))
    && (KeyPresent(s) ==> s.anchor.Some? && s.anchor == at)
    && (s.unlocked ==> s.unlockedAt.Some?)
    && s.failures == denials <= 2
    && s.lastActivity == last
  }

  ghost predicate Inv(cfg: Config, start: State, entries: seq<Entry>) {
    Agrees(cfg, Run(cfg, start, entries), LastMasterKey(entries), LastMasterTime(entries),
           Denials(cfg, start, entries), LastActivity(cfg, start, entries))
  }

  lemma QuickUnlockAgrees(cfg: Config, s: State, prompt: Prompt, restore: Restore, now: nat,
                          key: Option<SymmetricKey>, at: Option<nat>, n: nat, last: nat)
    requires Agrees(cfg, s, key, at, n, last)
    ensures var passed := PromptShown(cfg, s) && prompt == Authorized && restore == Valid;
            var denied := PromptShown(cfg, s) && prompt == Denied;
            Agrees(cfg, QuickUnlock(cfg, s, prompt, restore, now), key, at,
                   if passed then 0 else if denied then (if n == 2 then 0 else n + 1) else n,
                   if passed then now else last)
  {
  }

  lemma WatchdogAgrees(cfg: Config, s: State, e: Entry, key: Option<SymmetricKey>, at: Option<nat>, n: nat, last: nat)
    requires Agrees(cfg, s, key, at, n, last) && !e.event.Client? && !e.event.AgentQuickUnlock?
    ensures Agrees(cfg, Step(cfg, s, e), key, at, if LocksHard(cfg, s, e) then 0 else n,
                   if Touches(cfg, s, e) then e.now else last)
  {
  }

  lemma LockingAgrees(cfg: Config, s: State, e: Entry, key: Option<SymmetricKey>, at: Option<nat>, n: nat, last: nat)
    requires Agrees(cfg, s, key, at, n, last) && e.event.Client?
    requires e.event.request.action in {LockVault, Stop, WipeKey, SetQuickUnlockSetting, SetAutoLock, SshKeyCreate}
    ensures Agrees(cfg, Step(cfg, s, e), key, at, if LocksHard(cfg, s, e) then 0 else n,
                   if Touches(cfg, s, e) then e.now else last)
  {
  }

  lemma ClientAgrees(cfg: Config, s: State, e: Entry, key: Option<SymmetricKey>, at: Option<nat>, n: nat, last: nat)
    requires Agrees(cfg, s, key, at, n, last) && e.event.Client? && Asked(e).None?
    ensures Agrees(cfg, Step(cfg, s, e),
                   if MasterKey(e).Some? then MasterKey(e) else key,
                   if MasterKey(e).Some? then Some(e.now) else at,
                   if LocksHard(cfg, s, e) || MasterKey(e).Some? then 0 else n,
                   if Touches(cfg, s, e) then e.now else last)
  {
    if e.event.request.action in {LockVault, Stop, WipeKey, SetQuickUnlockSetting, SetAutoLock, SshKeyCreate} {
      LockingAgrees(cfg, s, e, key, at, n, last);
    }
  }

  lemma StepKeepsInv(cfg: Config, start: State, entries: seq<Entry>)
    requires entries != [] && Inv(cfg, start, entries[..|entries| - 1])
    ensures Inv(cfg, start, entries)
  {
    var before, e := entries[..|entries| - 1], entries[|entries| - 1];
    var s := Run(cfg, start, before);
    var key, at := LastMasterKey(before), LastMasterTime(before);
    var n, last := Denials(cfg, start, before), LastActivity(cfg, start, before);
    if Asked(e).Some? {
      var touched := e.event.Client? && ShouldTouch(e.event.request);
      var t := if touched then Touch(s, e.now) else s;
      QuickUnlockAgrees(cfg, t, Asked(e).value.0, Asked(e).value.1, e.now, key, at, n, if touched then e.now else last);
    } else if e.event.Client? {
      ClientAgrees(cfg, s, e, key, at, n, last);
    } else {
      WatchdogAgrees(cfg, s, e, key, at, n, last);
    }
  }

  lemma {:induction false} RunKeepsInv(cfg: Config, start: State, entries: seq<Entry>)
    requires Fresh(start)
    ensures Inv(cfg, start, entries)
  {
    if entries != [] {
      RunKeepsInv(cfg, start, entries[..|entries| - 1]);
      StepKeepsInv(cfg, start, entries);
    }
  }

  // ----- strikes -----

  // The counter is the number of denials since its last reset and never rests above two; a
  // prompt that could not be shown or answered changes nothing; the third denial in a row
  // leaves no key.
  lemma Strikes(cfg: Config, start: State, entries: seq<Entry>, e: Entry)
    requires Fresh(start)
    ensures var s, t := Run(cfg, start, entries), Step(cfg, Run(cfg, start, entries), e);
            && s.failures == Denials(cfg, start, entries) <= 2
            && (Asked(e).Some? && (!PromptShown(cfg, s) || Asked(e).value.0 == Unavailable) ==>
                  t == s || t == s.(lastActivity := e.now))
            && (ShownAndAnswered(cfg, s, e, Denied) && s.failures == 2 ==> t.retained.None? && t.failures == 0 && !t.unlocked)
  {
    RunKeepsInv(cfg, start, entries);
  }

  // ----- the session ceiling -----

  // Right after a watchdog check no key is older than the session lifetime, counted from the
  // last master-password unlock and whatever quick unlocks happened since.
  lemma CeilingAtTick(cfg: Config, start: State, entries: seq<Entry>, now: nat)
    requires Fresh(start) && cfg.maxLifetime > 0
    ensures var s := Step(cfg, Run(cfg, start, entries), Entry(now, AutoLockTick));
            KeyPresent(s) ==>
              var unlock := LastMasterTime(entries);
              unlock.Some? && Elapsed(unlock.value, now) <= cfg.maxLifetime
  {
    RunKeepsInv(cfg, start, entries);
  }

  predicate Chronological(entries: seq<Entry>) {
    forall i, j :: 0 <= i < j < |entries| ==> entries[i].now <= entries[j].now
  }

  function LastTick(entries: seq<Entry>): Option<nat> {
    if entries == [] then None
    else
      var e := entries[|entries| - 1];
      if e.event.AutoLockTick? then Some(e.now) else LastTick(entries[..|entries| - 1])
  }

  lemma {:induction false} AgeAtLastTick(cfg: Config, start: State, entries: seq<Entry>)
    requires Fresh(start) && cfg.maxLifetime > 0 && Chronological(entries)
    ensures LastTick(entries).Some? && KeyPresent(Run(cfg, start, entries)) ==>
              LastMasterTime(entries).Some? && LastTick(entries).value <= LastMasterTime(entries).value + cfg.maxLifetime
  {
    if entries != [] {
      var before, e := entries[..|entries| - 1], entries[|entries| - 1];
      AgeAtLastTick(cfg, start, before);
      RunKeepsInv(cfg, start, before);
      RunKeepsInv(cfg, start, entries);
      TickIsPast(entries);
    }
  }

  lemma {:induction false} TickIsPast(entries: seq<Entry>)
    requires Chronological(entries)
    ensures LastTick(entries).Some? ==> entries != [] && LastTick(entries).value <= entries[|entries| - 1].now
  {
    if entries != [] && !entries[|entries| - 1].event.AutoLockTick? {
      TickIsPast(entries[..|entries| - 1]);
    }
  }

  // Between checks: while the watchdog has run within the last `period`, no key is older than
  // the session lifetime plus that period.
  lemma CeilingBetweenTicks(cfg: Config, start: State, entries: seq<Entry>, now: nat, period: nat)
    requires Fresh(start) && cfg.maxLifetime > 0 && Chronological(entries)
    requires LastTick(entries).Some? && now <= LastTick(entries).value + period
    ensures KeyPresent(Run(cfg, start, entries)) ==>
              LastMasterTime(entries).Some? && now <= LastMasterTime(entries).value + cfg.maxLifetime + period
  {
    AgeAtLastTick(cfg, start, entries);
  }

  // ----- the idle lock -----

  // After a check an unlocked vault was used within the idle timeout.
  lemma IdleAtTick(cfg: Config, start: State, entries: seq<Entry>, now: nat)
    requires Fresh(start)
    ensures var s := Step(cfg, Run(cfg, start, entries), Entry(now, AutoLockTick));
            s.unlocked && s.autoLock > 0 ==> Elapsed(LastActivity(cfg, start, entries), now) <= s.autoLock
  {
    RunKeepsInv(cfg, start, entries);
  }

  // A request that only looks: it does not touch and its action changes nothing.
  predicate OnlyLooks(r: Request) {
    !ShouldTouch(r)
    && match r.action
       case LockVault | Stop | UnlockVault | QuickUnlockVault | WipeKey | SetQuickUnlockSetting => false
       case SyncVault | SshKeyCreate | SetAutoLock => false
       case _ => true
  }

  predicate Looks(e: Entry) {
    e.event.Client? && OnlyLooks(e.event.request)
  }

  // A state, and the outcomes outside, in which a request that does more shows.
  function Telling(r: Request): (State, World) {
    var key: SymmetricKey := SymmetricKey(seq(32, i => 0), None);
    var w := World(Some(key), Authorized, Valid, true, false);
    var soft := State(false, None, Some(key), Some(0), None, 0, 0, true, r.autoLock + 1, None);
    var s := if r.action == UnlockVault || r.action == QuickUnlockVault then soft
             else soft.(unlocked := true, userKey := Some(key), setting := !r.enabled);
    (s, w)
  }

  lemma MoreShows(r: Request)
    requires !OnlyLooks(r)
    ensures var (s, w) := Telling(r); HandleClient(Config(true, true, 0), s, r, w, 1) != s
  {
  }

  // These are exactly the requests that never change anything.
  lemma LooksExactly(r: Request)
    ensures OnlyLooks(r) <==> forall cfg, s, w, now :: HandleClient(cfg, s, r, w, now) == s
  {
    if !OnlyLooks(r) {
      MoreShows(r);
      var (s, w) := Telling(r);
      assert HandleClient(Config(true, true, 0), s, r, w, 1) != s;
    }
  }

  function WithoutLooks(entries: seq<Entry>): seq<Entry> {
    if entries == [] then []
    else
      var rest, e := WithoutLooks(entries[..|entries| - 1]), entries[|entries| - 1];
      if Looks(e) then rest else rest + [e]
  }

  // Leaving every such request out of a run, pings and status queries among them, changes
  // nothing: they postpone no lock.
  lemma {:induction false} LooksAreInvisible(cfg: Config, start: State, entries: seq<Entry>)
    ensures Run(cfg, start, WithoutLooks(entries)) == Run(cfg, start, entries)
  {
    if entries != [] {
      var rest, e := WithoutLooks(entries[..|entries| - 1]), entries[|entries| - 1];
      LooksAreInvisible(cfg, start, entries[..|entries| - 1]);
      if !Looks(e) {
        assert (rest + [e])[..|rest|] == rest;
      }
    }
  }

  // ----- the three phases -----

  datatype Phase = HardLocked | SoftLocked(key: SymmetricKey) | Open(key: SymmetricKey)

  function PhaseOf(s: State): Phase
    requires s.unlocked ==> s.userKey.Some?
  {
    if s.unlocked then Open(s.userKey.value)
    else if s.retained.Some? then SoftLocked(s.retained.value)
    else HardLocked
  }

  // The abstract machine. A key is opened by a master password, or by an authorised prompt
  // while that key is retained; it is retained only by locking an open vault softly.
  predicate Allowed(p: Phase, e: Entry, q: Phase) {
    match q
    case Open(k) =>
      || p == q
      || MasterKey(e) == Some(k)
      || (p == SoftLocked(k) && Asked(e) == Some((Authorized, Valid)))
    case SoftLocked(k) =>
      || p == q
      || (p == Open(k) && (e.event.AutoLockTick? || e.event == ScreenTick(Screen)))
    case HardLocked => true
  }

  lemma QuickUnlockAllowed(cfg: Config, s: State, e: Entry)
    requires (s.unlocked <==> s.userKey.Some?) && Asked(e).Some?
    ensures var t := Step(cfg, s, e); (t.unlocked ==> t.userKey.Some?) && Allowed(PhaseOf(s), e, PhaseOf(t))
  {
  }

  lemma WatchdogAllowed(cfg: Config, s: State, e: Entry)
    requires (s.unlocked <==> s.userKey.Some?) && !e.event.Client? && Asked(e).None?
    ensures var t := Step(cfg, s, e); (t.unlocked ==> t.userKey.Some?) && Allowed(PhaseOf(s), e, PhaseOf(t))
  {
  }

  lemma StepAllowed(cfg: Config, s: State, e: Entry)
    requires s.unlocked <==> s.userKey.Some?
    ensures var t := Step(cfg, s, e); (t.unlocked ==> t.userKey.Some?) && Allowed(PhaseOf(s), e, PhaseOf(t))
  {
    if Asked(e).Some? {
      QuickUnlockAllowed(cfg, s, e);
    } else if !e.event.Client? {
      WatchdogAllowed(cfg, s, e);
    }
  }

  // After any such lock there is neither an unlocked vault nor a retained key; a soft lock that
  // can be followed by a quick unlock keeps exactly the key that was in use.
  lemma LockOutcome(cfg: Config, s: State, e: Entry)
    requires s.unlocked <==> s.userKey.Some?
    ensures LocksFully(cfg, s, e) ==> !KeyPresent(Step(cfg, s, e))
    ensures LocksSoftly(cfg, s, e) && Usable(cfg, s) ==>
              !Step(cfg, s, e).unlocked && Step(cfg, s, e).retained == s.userKey
  {
  }

  // A master password opens the vault and starts the session anew; a quick unlock opens it with the
  // retained key and leaves the session's anchor.
  lemma OpenOutcome(cfg: Config, s: State, e: Entry)
    ensures MasterKey(e).Some? ==>
              var t := Step(cfg, s, e);
              && t.unlocked && t.userKey == MasterKey(e) && t.anchor == Some(e.now) && t.unlockedAt == Some(e.now)
              && t.failures == 0 && t.retained == if s.retained.Some? then MasterKey(e) else None
    ensures QuickUnlocked(cfg, s, e) ==>
              var t := Step(cfg, s, e);
              && t.unlocked && t.userKey == s.retained == t.retained && t.anchor == s.anchor && t.unlockedAt == Some(e.now)
              && t.failures == 0 && t.lastActivity == e.now
  {
  }

  // Every step of every run is a step of the abstract machine; the key in hand is the one the
  // last master password opened, and it is retained only while quick unlock can work.
  lemma RefinesPhases(cfg: Config, start: State, entries: seq<Entry>, e: Entry)
    requires Fresh(start)
    ensures var s, t := Run(cfg, start, entries), Run(cfg, start, entries + [e]);
            && (s.unlocked ==> s.userKey.Some?) && (t.unlocked ==> t.userKey.Some?)
            && Allowed(PhaseOf(s), e, PhaseOf(t))
            && (MasterKey(e).Some? ==> PhaseOf(t) == Open(MasterKey(e).value))
            && (QuickUnlocked(cfg, s, e) ==> PhaseOf(t) == Open(s.retained.value))
            && (LocksFully(cfg, s, e) ==> PhaseOf(t) == HardLocked)
            && (LocksSoftly(cfg, s, e) && Usable(cfg, s) ==> s.unlocked && PhaseOf(t) == SoftLocked(s.userKey.value))
            && (PhaseOf(t).Open? ==> LastMasterKey(entries + [e]) == Some(PhaseOf(t).key))
            && (PhaseOf(t).SoftLocked? ==> LastMasterKey(entries + [e]) == Some(PhaseOf(t).key) && Usable(cfg, t))
  {
    assert (entries + [e])[..|entries|] == entries;
    RunKeepsInv(cfg, start, entries);
    RunKeepsInv(cfg, start, entries + [e]);
    var s := Run(cfg, start, entries);
    StepAllowed(cfg, s, e);
    OpenOutcome(cfg, s, e);
    LockOutcome(cfg, s, e);
  }

  // A suspension the clock reports leaves no key in any run.
  lemma SuspendWipes(cfg: Config, start: State, entries: seq<Entry>, m0: nat, m1: nat, before: nat, slept: nat, now: nat)
    requires Run(cfg, start, entries).bootDelta == Some(BootDelta(m0, before)) && slept >= 3 * NANOS - 1
    ensures !KeyPresent(Step(cfg, Run(cfg, start, entries), Entry(now, SuspendTick(Some(BootDelta(m1, before + slept))))))
  {
    LongSuspendReported(slept);
    assert Reported(m0, m1, before, slept);
  }
}
