/**
 The clipboard's timed clearing: generations that tell an old timer from the newest one.

 A manager counts its timed copies and clears and writes the count to a file that all managers
 share; a timer clears only when the file still holds the count it was started with.
 */
module Clipboard {
  import opened Results

  // What one manager sees: its own counter, the shared file, the clipboard.
  datatype View = View(generation: nat, file: Option<nat>, clip: Option<string>)

  function Bump(v: View): View {
    v.(generation := v.generation + 1, file := Some(v.generation + 1))
  }

  // A copy worth a timer: it went through, is sensitive, and is to be forgotten.
  predicate Timed(ok: bool, sensitive: bool, timeout: int) {
    ok && sensitive && timeout > 0
  }

  function Copied(v: View, ok: bool, text: string, sensitive: bool, timeout: int): View {
    var w := if ok then v.(clip := Some(text)) else v;
    if Timed(ok, sensitive, timeout) then Bump(w) else w
  }

  function Cleared(v: View, ok: bool): View {
    if ok then Bump(v).(clip := None) else Bump(v)
  }

  function Current(v: View): nat {
    if v.file.Some? then v.file.value else v.generation
  }

  function Fired(v: View, expected: nat, ok: bool): View {
    if Current(v) == expected && ok then v.(clip := None) else v
  }

  // A copy that works puts its text on the clipboard and counts just when it is sensitive and to be
  // forgotten; a clear counts whether it works or not, and removes the text when it does.
  lemma CopyAndClear(v: View, ok: bool, text: string, sensitive: bool, timeout: int)
    ensures Copied(v, ok, text, sensitive, timeout).clip == if ok then Some(text) else v.clip
    ensures var counts := ok && sensitive && timeout > 0;
            && Copied(v, ok, text, sensitive, timeout).generation == (if counts then v.generation + 1 else v.generation)
            && Copied(v, ok, text, sensitive, timeout).file == (if counts then Some(v.generation + 1) else v.file)
    ensures Cleared(v, ok) == View(v.generation + 1, Some(v.generation + 1), if ok then None else v.clip)
    ensures forall expected :: Fired(v, expected, ok) ==
              if ok && expected == (if v.file.Some? then v.file.value else v.generation) then v.(clip := None) else v
  {
  }

  // ----- runs of any number of managers -----

  datatype Timer = Timer(manager: nat, expected: nat)

  datatype State = State(generations: map<nat, nat>, file: Option<nat>, clip: Option<string>, timers: seq<Timer>)

  // Managers are numbered; Outside is a copy made by another program.
  datatype Event =
    | Copy(manager: nat, ok: bool, text: string, sensitive: bool, timeout: int)
    | Clear(manager: nat, ok: bool)
    | Fire(timer: nat, ok: bool)
    | Outside(text: string)

  function Start(file: Option<nat>): State {
    State(map[], file, None, [])
  }

  // A manager starts at generation 1.
  function Generation(s: State, m: nat): nat {
    if m in s.generations then s.generations[m] else 1
  }

  function Seen(s: State, m: nat): View {
    View(Generation(s, m), s.file, s.clip)
  }

  function Put(s: State, m: nat, v: View): State {
    s.(generations := s.generations[m := v.generation], file := v.file, clip := v.clip)
  }

  function Step(s: State, e: Event): State {
    match e
    case Copy(m, ok, text, sensitive, timeout) =>
      var v := Copied(Seen(s, m), ok, text, sensitive, timeout);
      var r := Put(s, m, v);
      if Timed(ok, sensitive, timeout) then r.(timers := s.timers + [Timer(m, v.generation)]) else r
    case Clear(m, ok) => Put(s, m, Cleared(Seen(s, m), ok))
    case Fire(t, ok) =>
      if t < |s.timers| then s.(clip := Fired(Seen(s, s.timers[t].manager), s.timers[t].expected, ok).clip) else s
    case Outside(text) => s.(clip := Some(text))
  }

  function Run(s: State, es: seq<Event>): State {
    if es == [] then s else Step(Run(s, es[..|es| - 1]), es[|es| - 1])
  }

  // The events that count: timed copies, and clears whether they succeed or not.
  function Bumper(e: Event): Option<nat> {
    match e
    case Copy(m, ok, _, sensitive, timeout) => if Timed(ok, sensitive, timeout) then Some(m) else None
    case Clear(m, _) => Some(m)
    case _ => None
  }

  function Bumps(es: seq<Event>, m: nat): nat {
    if es == [] then 0 else Bumps(es[..|es| - 1], m) + if Bumper(es[|es| - 1]) == Some(m) then 1 else 0
  }

  function LastBumper(es: seq<Event>): Option<nat> {
    if es == [] then None
    else if Bumper(es[|es| - 1]).Some? then Bumper(es[|es| - 1])
    else LastBumper(es[..|es| - 1])
  }

  lemma {:induction false} Counted(file: Option<nat>, es: seq<Event>, m: nat)
    ensures Generation(Run(Start(file), es), m) == 1 + Bumps(es, m)
    decreases |es|
  {
    if es != [] {
      Counted(file, es[..|es| - 1], m);
    }
  }

  // The file holds the count of whoever wrote last.
  lemma {:induction false} FileHolds(file: Option<nat>, es: seq<Event>)
    ensures var s := Run(Start(file), es);
            match LastBumper(es) case None => s.file == file case Some(m) => s.file == Some(1 + Bumps(es, m))
    decreases |es|
  {
    if es != [] {
      var before, e := es[..|es| - 1], es[|es| - 1];
      FileHolds(file, before);
      if Bumper(e).Some? {
        Counted(file, before, Bumper(e).value);
      }
    }
  }

  lemma StepKeepsTimers(s: State, e: Event)
    ensures s.timers <= Step(s, e).timers
  {
  }

  lemma {:induction false} TimersKept(s: State, es: seq<Event>, n: nat)
    requires n <= |es|
    ensures Run(s, es[..n]).timers <= Run(s, es).timers
    decreases |es|
  {
    hide Step;
    if n == |es| {
      assert es[..n] == es;
    } else {
      TimersKept(s, es[..|es| - 1], n);
      StepKeepsTimers(Run(s, es[..|es| - 1]), es[|es| - 1]);
      assert es[..|es| - 1][..n] == es[..n];
    }
  }

  lemma {:induction false} BumpedSince(es: seq<Event>, n: nat, m: nat)
    requires n <= |es|
    ensures Bumps(es[..n], m) <= Bumps(es, m)
    ensures Bumps(es[..n], m) == Bumps(es, m) <==> forall i :: n <= i < |es| ==> Bumper(es[i]) != Some(m)
    decreases |es|
  {
    if n == |es| {
      assert es[..n] == es;
    } else {
      BumpedSince(es[..|es| - 1], n, m);
      assert es[..|es| - 1][..n] == es[..n];
    }
  }

  lemma BumpedOnce(es: seq<Event>, n: nat, m: nat)
    requires n < |es| && Bumper(es[n]) == Some(m)
    ensures 1 <= Bumps(es[..n + 1], m) <= Bumps(es, m)
  {
    assert es[..n + 1][..n] == es[..n];
    BumpedSince(es, n + 1, m);
  }

  lemma {:induction false} LastBumperIs(es: seq<Event>, n: nat)
    requires n < |es| && Bumper(es[n]).Some?
    ensures LastBumper(es).Some?
    ensures exists i :: n <= i < |es| && Bumper(es[i]) == LastBumper(es)
    decreases |es|
  {
    if Bumper(es[|es| - 1]).None? {
      LastBumperIs(es[..|es| - 1], n);
    }
  }

  // The timer that the n-th event starts, by its number.
  function TimerOf(file: Option<nat>, es: seq<Event>, n: nat): nat
    requires n <= |es|
  {
    |Run(Start(file), es[..n]).timers|
  }

  lemma TimerStarted(file: Option<nat>, es: seq<Event>, n: nat)
    requires n < |es| && es[n].Copy? && Bumper(es[n]).Some?
    ensures var s, t := Run(Start(file), es), TimerOf(file, es, n);
            t < |s.timers| && s.timers[t] == Timer(es[n].manager, 1 + Bumps(es[..n + 1], es[n].manager))
  {
    var m := es[n].manager;
    assert es[..n + 1][..n] == es[..n];
    Counted(file, es[..n + 1], m);
    TimersKept(Start(file), es, n + 1);
  }

  // When a timer goes off it clears exactly when the last manager to write the file has counted
  // as far as the timer's own manager had; otherwise it changes nothing.
  lemma TimerClears(file: Option<nat>, es: seq<Event>, n: nat)
    requires n < |es| && es[n].Copy? && Bumper(es[n]).Some?
    ensures LastBumper(es).Some?
    ensures var s := Run(Start(file), es);
            Step(s, Fire(TimerOf(file, es, n), true)) ==
              if Bumps(es, LastBumper(es).value) == Bumps(es[..n + 1], es[n].manager) then s.(clip := None) else s
  {
    TimerStarted(file, es, n);
    FileHolds(file, es);
    LastBumperIs(es, n);
  }

  // With a single manager, a timer clears exactly when nothing was copied for a time or cleared
  // since; what other programs copied, and copies kept for good, make no difference.
  lemma OneManager(file: Option<nat>, es: seq<Event>, n: nat, m: nat)
    requires n < |es| && es[n].Copy? && Bumper(es[n]).Some?
    requires forall i :: 0 <= i < |es| && Bumper(es[i]).Some? ==> Bumper(es[i]) == Some(m)
    ensures var s := Run(Start(file), es);
            Step(s, Fire(TimerOf(file, es, n), true)) ==
              if forall i :: n < i < |es| ==> Bumper(es[i]).None? then s.(clip := None) else s
  {
    TimerClears(file, es, n);
    LastBumperIs(es, n);
    BumpedSince(es, n + 1, m);
  }

  // With a manager made for every call, as the daemon makes them, every timer clears whatever
  // the clipboard holds: a copy or a clear in between does not stop it.
  lemma FreshManagers(file: Option<nat>, es: seq<Event>, n: nat)
    requires n < |es| && es[n].Copy? && Bumper(es[n]).Some?
    requires forall m :: Bumps(es, m) <= 1
    ensures var s := Run(Start(file), es); Step(s, Fire(TimerOf(file, es, n), true)) == s.(clip := None)
  {
    hide Bumps;
    hide Step;
    hide Run;
    TimerClears(file, es, n);
    LastBumperIs(es, n);
    var i :| n <= i < |es| && Bumper(es[i]) == LastBumper(es);
    BumpedOnce(es, i, LastBumper(es).value);
    BumpedOnce(es, n, es[n].manager);
  }

  // ----- the same as the code runs it -----

  class Desktop {
    var file: Option<nat>
    var clip: Option<string>

    constructor (file: Option<nat>)
      ensures this.file == file && clip == None
    {
      this.file, clip := file, None;
    }
  }

  class ClipboardManager {
    const desktop: Desktop
    var generation: nat

    ghost function See(): View
      reads this, desktop
    {
      View(generation, desktop.file, desktop.clip)
    }

    constructor (desktop: Desktop)
      ensures this.desktop == desktop && generation == 1
    {
      this.desktop, generation := desktop, 1;
    }

    method NextGeneration() returns (gen: nat)
      modifies this, desktop
      ensures See() == Bump(old(See())) && gen == generation
    {
      generation := generation + 1;
      gen := generation;
      desktop.file := Some(gen);
    }

    // The tool is there and takes the text, or not; a timer is started for what it returns.
    method CopyText(available: bool, works: bool, text: string, sensitive: bool, timeout: int)
      returns (ok: bool, timer: Option<nat>)
      modifies this, desktop
      ensures ok == (available && works)
      ensures See() == Copied(old(See()), ok, text, sensitive, timeout)
      ensures timer == if Timed(ok, sensitive, timeout) then Some(generation) else None
    {
      timer := None;
      if !available {
        return false, None;
      }
      ok := works;
      if ok {
        desktop.clip := Some(text);
        if sensitive && timeout > 0 {
          var expected := NextGeneration();
          timer := Some(expected);
        }
      }
    }

    method ClearText(available: bool, works: bool) returns (ok: bool)
      modifies this, desktop
      ensures ok == (available && works) && See() == Cleared(old(See()), ok)
    {
      var _ := NextGeneration();
      if !available {
        return false;
      }
      ok := works;
      if ok {
        desktop.clip := None;
      }
    }

    method TimerGoesOff(expected: nat, works: bool)
      modifies desktop
      ensures See() == Fired(old(See()), expected, works)
    {
      var current := if desktop.file.Some? then desktop.file.value else generation;
      if current == expected && works {
        desktop.clip := None;
      }
    }
  }
}
