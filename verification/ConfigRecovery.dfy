/** Config updates beside the recovery of a broken config: `updateYAMLSection`
    (internal/admin/config_yaml.go) under its mutex, and `ReloadWithRecovery`,
    `LoadWithRecovery` and `quarantine` (internal/config/guard.go), which the hot-reload
    watcher and the reload endpoint run without that mutex.

    Every step is one system call on one of the two named files; temporary files are private
    to their writer and complete when they are renamed, as the write model proves. */
module ConfigRecovery {
  import opened Prelude

  type Bytes = string

  /** What the two checks accept: `ProbeValidate` before a write, and the reload, which also
      looks at where a key comes from and may refuse bytes that validate. */
  datatype Rules = Rules(valid: Bytes -> bool, loads: Bytes -> bool)

  /** Where an actor stands. The updaters read the config, look at it again for the backup,
      compare, write the backup, rename and reload; the watchers check the config, check the
      backup, read it, move the config away and restore. */
  datatype Actor =
    | Updater | Prepared(bytes: Bytes) | Compared(raw: Bytes, bytes: Bytes) | BackingUp(raw: Bytes, bytes: Bytes)
    | Renaming(bytes: Bytes) | Reloading(bytes: Bytes) | Updated(saved: bool)
    | Watcher | Suspecting | Trusting | HasBackup(raw: Bytes) | Restoring(raw: Bytes) | Watched | RestoreFailed

  datatype State = State(config: Option<Bytes>, backup: Option<Bytes>, locked: bool, actors: seq<Actor>)

  datatype Action =
    | Begin(i: nat, change: Bytes -> Option<Bytes>)  // lock, read, change and validate
    | Step(i: nat)                                   // the next system call of an actor
    | Fail(i: nat)                                   // that call fails
    | Edit(bytes: Bytes)                             // somebody edits the config by hand

  predicate InUpdate(a: Actor) { a.Prepared? || a.Compared? || a.BackingUp? || a.Renaming? || a.Reloading? }

  predicate InRecovery(a: Actor) { a.Watcher? || a.Suspecting? || a.Trusting? || a.HasBackup? || a.Restoring? }

  predicate Enabled(s: State, a: Action, rules: Rules) {
    match a
    case Begin(i, change) =>
      && i < |s.actors| && s.actors[i].Updater? && !s.locked && s.config.Some?
      && change(s.config.value).Some? && rules.valid(change(s.config.value).value)
    case Step(i) => i < |s.actors| && (InUpdate(s.actors[i]) || InRecovery(s.actors[i]))
    case Fail(i) => i < |s.actors| && (InUpdate(s.actors[i]) || InRecovery(s.actors[i]))
    case Edit(_) => true
  }

  function Accepts(rules: Rules, file: Option<Bytes>): bool { file.Some? && rules.loads(file.value) }

  /** The actor after its call succeeds. */
  function Moved(s: State, a: Actor, rules: Rules): Actor {
    match a
    case Prepared(b) => if s.config.Some? then Compared(s.config.value, b) else Renaming(b)
    case Compared(raw, b) => if s.backup == Some(raw) then Renaming(b) else BackingUp(raw, b)
    case BackingUp(_, b) => Renaming(b)
    case Renaming(b) => Reloading(b)
    case Reloading(_) => Updated(Accepts(rules, s.config))
    case Watcher => if Accepts(rules, s.config) then Watched else Suspecting
    case Suspecting => if Accepts(rules, s.backup) then Trusting else Watched
    case Trusting => if s.backup.Some? then HasBackup(s.backup.value) else Watched
    case HasBackup(raw) => if s.config.Some? then Restoring(raw) else Watched
    case Restoring(_) => Watched
    case _ => a
  }

  function ConfigAfter(s: State, a: Actor): Option<Bytes> {
    match a
    case Renaming(b) => Some(b)
    case HasBackup(_) => None
    case Restoring(raw) => Some(raw)
    case _ => s.config
  }

  function Next(s: State, a: Action, rules: Rules): State
    requires Enabled(s, a, rules)
  {
    match a
    case Begin(i, change) => s.(locked := true, actors := s.actors[i := Prepared(change(s.config.value).value)])
    case Step(i) =>
      var w := s.actors[i];
      State(ConfigAfter(s, w), if w.BackingUp? then Some(w.raw) else s.backup,
            if w.Reloading? then false else s.locked, s.actors[i := Moved(s, w, rules)])
    case Fail(i) =>
      var w := s.actors[i];
      if InUpdate(w) then s.(locked := false, actors := s.actors[i := Updated(false)])
      else s.(actors := s.actors[i := if w.Restoring? then RestoreFailed else Watched])
    case Edit(b) => s.(config := Some(b))
  }

  predicate CanRun(s: State, acts: seq<Action>, rules: Rules)
    decreases |acts|
  {
    acts == [] || (Enabled(s, acts[0], rules) && CanRun(Next(s, acts[0], rules), acts[1..], rules))
  }

  function Run(s: State, acts: seq<Action>, rules: Rules): State
    requires CanRun(s, acts, rules)
    decreases |acts|
  {
    if acts == [] then s else Run(Next(s, acts[0], rules), acts[1..], rules)
  }

  // ---------------------------------------------------------------- what is in the files

  predicate ValidFile(file: Option<Bytes>, rules: Rules) { file.Some? ==> rules.valid(file.value) }

  /** All bytes an actor may still write are valid. */
  predicate Carries(a: Actor, rules: Rules) {
    match a
    case Prepared(b) => rules.valid(b)
    case Compared(raw, b) => rules.valid(raw) && rules.valid(b)
    case BackingUp(raw, b) => rules.valid(raw) && rules.valid(b)
    case Renaming(b) => rules.valid(b)
    case HasBackup(raw) => rules.valid(raw)
    case Restoring(raw) => rules.valid(raw)
    case _ => true
  }

  ghost predicate AllValid(s: State, rules: Rules) {
    && ValidFile(s.config, rules) && ValidFile(s.backup, rules)
    && forall k :: 0 <= k < |s.actors| ==> Carries(s.actors[k], rules)
  }

  lemma StepKeepsValid(s: State, a: Action, rules: Rules)
    requires AllValid(s, rules) && Enabled(s, a, rules) && (a.Edit? ==> rules.valid(a.bytes))
    ensures AllValid(Next(s, a, rules), rules)
  {
    if !a.Edit? { assert Carries(s.actors[a.i], rules); }
  }

  /** Validity over all interleavings of any number of updates and recoveries, with failures
      and, since every state of a run is one a crash may leave, with crashes: as long as every
      edit by hand is valid, both files hold nothing but valid bytes. */
  lemma {:induction false} RunKeepsValid(s: State, acts: seq<Action>, rules: Rules)
    requires AllValid(s, rules) && CanRun(s, acts, rules)
    requires forall a :: a in acts && a.Edit? ==> rules.valid(a.bytes)
    ensures AllValid(Run(s, acts, rules), rules)
    decreases |acts|
  {
    if acts != [] {
      StepKeepsValid(s, acts[0], rules);
      assert forall a :: a in acts[1..] ==> a in acts;
      RunKeepsValid(Next(s, acts[0], rules), acts[1..], rules);
    }
  }

  // ---------------------------------------------------------------- when the config is missing

  /** Some recovery has moved the config away and has not restored it. */
  ghost predicate Away(s: State) {
    exists k :: 0 <= k < |s.actors| && (s.actors[k].Restoring? || s.actors[k].RestoreFailed?)
  }

  lemma StepKeepsMissing(s: State, a: Action, rules: Rules)
    requires Enabled(s, a, rules) && (s.config.None? ==> Away(s))
    ensures Next(s, a, rules).config.None? ==> Away(Next(s, a, rules))
  {
    var t := Next(s, a, rules);
    if t.config.None? {
      if s.config.None? {
        var k :| 0 <= k < |s.actors| && (s.actors[k].Restoring? || s.actors[k].RestoreFailed?);
        if k != a.i {
          assert t.actors[k] == s.actors[k];
        } else {
          assert t.actors[k].RestoreFailed?;
        }
      } else {
        assert t.actors[a.i].Restoring?;
      }
    }
  }

  /** The config is there at every moment of every run, except between the two renames of a
      recovery or after one whose restore failed. */
  lemma {:induction false} MissingOnlyInRecovery(s: State, acts: seq<Action>, rules: Rules)
    requires CanRun(s, acts, rules) && (s.config.None? ==> Away(s))
    ensures Run(s, acts, rules).config.None? ==> Away(Run(s, acts, rules))
    decreases |acts|
  {
    if acts != [] {
      StepKeepsMissing(s, acts[0], rules);
      MissingOnlyInRecovery(Next(s, acts[0], rules), acts[1..], rules);
    }
  }

  datatype Startup = Started(config: Bytes) | Fatal

  /** `LoadWithRecovery`, with no call failing for another reason: a config that does not load
      is moved away and replaced by a backup that does; there must be one to move. */
  method LoadWithRecovery(config: Option<Bytes>, backup: Option<Bytes>, rules: Rules) returns (r: Startup)
    ensures r.Fatal? <==> !Accepts(rules, config) && (!Accepts(rules, backup) || config.None?)
    ensures r.Started? ==> rules.loads(r.config) && Some(r.config) == if Accepts(rules, config) then config else backup
  {
    if config.Some? && rules.loads(config.value) {
      return Started(config.value);
    }
    if backup.None? {
      return Fatal;
    }
    if !rules.loads(backup.value) {
      return Fatal;
    }
    if config.None? {
      return Fatal;  // quarantine cannot rename a file that is not there
    }
    r := Started(backup.value);
  }

  // ---------------------------------------------------------------- when a saved update stays

  /** A recovery that can still take `bytes` away. */
  predicate Threat(s: State, a: Actor, bytes: Bytes, rules: Rules) {
    match a
    case Watcher => !rules.loads(bytes) && Accepts(rules, s.backup)
    case Suspecting => Accepts(rules, s.backup)
    case Trusting => s.backup.Some?
    case HasBackup(_) => true
    case Restoring(raw) => raw != bytes
    case _ => false
  }

  ghost predicate NoThreat(s: State, bytes: Bytes, rules: Rules) {
    forall k :: 0 <= k < |s.actors| ==> !Threat(s, s.actors[k], bytes, rules)
  }

  /** A run of the watchers alone. */
  ghost predicate Recovers(s: State, acts: seq<Action>, rules: Rules) {
    CanRun(s, acts, rules) && OnlyWatchers(s, acts, rules)
  }

  ghost predicate OnlyWatchers(s: State, acts: seq<Action>, rules: Rules)
    requires CanRun(s, acts, rules)
    decreases |acts|
  {
    acts == [] || ((acts[0].Step? || acts[0].Fail?) && InRecovery(s.actors[acts[0].i])
                   && OnlyWatchers(Next(s, acts[0], rules), acts[1..], rules))
  }

  lemma WatcherStepHarmless(s: State, a: Action, bytes: Bytes, rules: Rules)
    requires Enabled(s, a, rules) && (a.Step? || a.Fail?) && InRecovery(s.actors[a.i])
    requires s.config == Some(bytes) && NoThreat(s, bytes, rules)
    ensures Next(s, a, rules).config == Some(bytes) && NoThreat(Next(s, a, rules), bytes, rules)
  {
    assert !Threat(s, s.actors[a.i], bytes, rules);
    var t := Next(s, a, rules);
    assert t.backup == s.backup;
    forall k | 0 <= k < |t.actors| ensures !Threat(t, t.actors[k], bytes, rules) {
      if k != a.i {
        assert t.actors[k] == s.actors[k] && !Threat(s, s.actors[k], bytes, rules);
      }
    }
  }

  lemma {:induction false} HarmlessRun(s: State, acts: seq<Action>, bytes: Bytes, rules: Rules)
    requires Recovers(s, acts, rules) && s.config == Some(bytes) && NoThreat(s, bytes, rules)
    ensures Run(s, acts, rules).config == Some(bytes)
    decreases |acts|
  {
    if acts != [] {
      WatcherStepHarmless(s, acts[0], bytes, rules);
      HarmlessRun(Next(s, acts[0], rules), acts[1..], bytes, rules);
    }
  }

  /** How many steps a threat is from touching the config. */
  function StepsAway(a: Actor): nat {
    match a case Watcher => 4 case Suspecting => 3 case Trusting => 2 case _ => 1
  }

  lemma {:induction false} ThreatStrikes(s: State, i: nat, bytes: Bytes, rules: Rules) returns (acts: seq<Action>)
    requires s.config == Some(bytes) && i < |s.actors| && Threat(s, s.actors[i], bytes, rules)
    ensures Recovers(s, acts, rules) && Run(s, acts, rules).config != Some(bytes)
    decreases StepsAway(s.actors[i])
  {
    var t := Next(s, Step(i), rules);
    var rest := [];
    if t.config == Some(bytes) { rest := ThreatStrikes(t, i, bytes, rules); }
    acts := [Step(i)] + rest;
    assert acts[0] == Step(i) && acts[1..] == rest;
  }

  /** The exact condition under which an update stays: in every run of the watchers the config
      keeps the bytes it holds, if and only if no recovery is under way that has judged an
      earlier config, and the bytes load or there is no backup that does. */
  lemma SavedStaysIff(s: State, bytes: Bytes, rules: Rules)
    requires s.config == Some(bytes)
    ensures (forall acts :: Recovers(s, acts, rules) ==> Run(s, acts, rules).config == Some(bytes)) <==>
            NoThreat(s, bytes, rules)
  {
    if NoThreat(s, bytes, rules) {
      forall acts | Recovers(s, acts, rules) ensures Run(s, acts, rules).config == Some(bytes) {
        HarmlessRun(s, acts, bytes, rules);
      }
    } else {
      var i: nat :| i < |s.actors| && Threat(s, s.actors[i], bytes, rules);
      var acts := ThreatStrikes(s, i, bytes, rules);
    }
  }

  // ---------------------------------------------------------------- a saved update and both files lost

  lemma {:induction false} RunSnoc(s: State, acts: seq<Action>, a: Action, rules: Rules)
    requires CanRun(s, acts, rules) && Enabled(Run(s, acts, rules), a, rules)
    ensures CanRun(s, acts + [a], rules) && Run(s, acts + [a], rules) == Next(Run(s, acts, rules), a, rules)
    decreases |acts|
  {
    if acts == [] {
      assert [] + [a] == [a] && [a][1..] == [];
    } else {
      assert (acts + [a])[1..] == acts[1..] + [a];
      RunSnoc(Next(s, acts[0], rules), acts[1..], a, rules);
    }
  }

  /** A run from `s` to `t`. */
  ghost predicate Leads(s: State, acts: seq<Action>, t: State, rules: Rules) {
    CanRun(s, acts, rules) && Run(s, acts, rules) == t
  }

  /** One more step at the end of a run. */
  lemma Go(s: State, acts: seq<Action>, t: State, a: Action, rules: Rules) returns (more: seq<Action>)
    requires Leads(s, acts, t, rules) && Enabled(t, a, rules)
    ensures Leads(s, more, Next(t, a, rules), rules)
  {
    RunSnoc(s, acts, a, rules);
    more := acts + [a];
  }

  /** The two actors of the race. */
  predicate Pair(s: State, config: Option<Bytes>, backup: Option<Bytes>, u: Actor, w: Actor) {
    s.config == config && s.backup == backup && s.actors == [u, w]
  }

  /** The config is broken by hand, and a recovery judges both files. */
  lemma BothJudged(s: State, good: Bytes, bad: Bytes, rules: Rules) returns (acts: seq<Action>, t: State)
    requires Pair(s, Some(good), Some(good), Updater, Watcher) && !s.locked && rules.loads(good) && !rules.loads(bad)
    ensures Leads(s, acts, t, rules) && Pair(t, Some(bad), Some(good), Updater, Trusting) && !t.locked
  {
    acts, t := [], s;
    acts := Go(s, acts, t, Edit(bad), rules);
    t := Next(t, Edit(bad), rules);
    acts := Go(s, acts, t, Step(1), rules);
    t := Next(t, Step(1), rules);
    assert Pair(t, Some(bad), Some(good), Updater, Suspecting);
    acts := Go(s, acts, t, Step(1), rules);
    t := Next(t, Step(1), rules);
  }

  /** An update that repairs the config copies the broken bytes over the backup. */
  lemma BrokenBytesReachTheBackup(s: State, pre: seq<Action>, u: State, good: Bytes, bad: Bytes, fixed: Bytes,
                                  change: Bytes -> Option<Bytes>, rules: Rules)
    returns (acts: seq<Action>, t: State)
    requires Leads(s, pre, u, rules) && Pair(u, Some(bad), Some(good), Updater, Trusting) && !u.locked
    requires bad != good && change(bad) == Some(fixed) && rules.valid(fixed)
    ensures Leads(s, acts, t, rules) && Pair(t, Some(bad), Some(bad), Renaming(fixed), Trusting)
  {
    acts := Go(s, pre, u, Begin(0, change), rules);
    t := Next(u, Begin(0, change), rules);
    assert Pair(t, Some(bad), Some(good), Prepared(fixed), Trusting);
    acts := Go(s, acts, t, Step(0), rules);
    t := Next(t, Step(0), rules);
    assert Pair(t, Some(bad), Some(good), Compared(bad, fixed), Trusting);
    acts := Go(s, acts, t, Step(0), rules);
    t := Next(t, Step(0), rules);
    assert Pair(t, Some(bad), Some(good), BackingUp(bad, fixed), Trusting);
    acts := Go(s, acts, t, Step(0), rules);
    t := Next(t, Step(0), rules);
  }

  /** The recovery reads the backup, and the update is saved and reloaded. */
  lemma UpdateIsSaved(s: State, pre: seq<Action>, u: State, bad: Bytes, fixed: Bytes, rules: Rules)
    returns (acts: seq<Action>, t: State)
    requires Leads(s, pre, u, rules) && Pair(u, Some(bad), Some(bad), Renaming(fixed), Trusting) && rules.loads(fixed)
    ensures Leads(s, acts, t, rules) && Pair(t, Some(fixed), Some(bad), Updated(true), HasBackup(bad))
  {
    acts := Go(s, pre, u, Step(1), rules);
    t := Next(u, Step(1), rules);
    assert Pair(t, Some(bad), Some(bad), Renaming(fixed), HasBackup(bad));
    acts := Go(s, acts, t, Step(0), rules);
    t := Next(t, Step(0), rules);
    assert Pair(t, Some(fixed), Some(bad), Reloading(fixed), HasBackup(bad));
    acts := Go(s, acts, t, Step(0), rules);
    t := Next(t, Step(0), rules);
  }

  /** The recovery moves the saved bytes away and restores what it read. */
  lemma SavedUpdateIsLost(s: State, pre: seq<Action>, u: State, bad: Bytes, fixed: Bytes, rules: Rules)
    returns (acts: seq<Action>, t: State)
    requires Leads(s, pre, u, rules) && Pair(u, Some(fixed), Some(bad), Updated(true), HasBackup(bad))
    ensures Leads(s, acts, t, rules) && Pair(t, Some(bad), Some(bad), Updated(true), Watched)
  {
    acts := Go(s, pre, u, Step(1), rules);
    t := Next(u, Step(1), rules);
    assert Pair(t, None, Some(bad), Updated(true), Restoring(bad));
    acts := Go(s, acts, t, Step(1), rules);
    t := Next(t, Step(1), rules);
  }

  /** A recovery can destroy what it is meant to save. From a config and a backup that load
      there is a run, with one edit by hand, in which an update is saved and reloaded without
      error and its bytes are then replaced, as the last good copy, by bytes that do not load;
      at the end neither file loads, so that by `LoadWithRecovery` the next start fails. */
  lemma RecoveryCanBreakBothFiles(s: State, good: Bytes, bad: Bytes, fixed: Bytes, change: Bytes -> Option<Bytes>, rules: Rules)
    returns (acts: seq<Action>, t: State)
    requires Pair(s, Some(good), Some(good), Updater, Watcher) && !s.locked && rules.loads(good) && !rules.loads(bad)
    requires change(bad) == Some(fixed) && rules.valid(fixed) && rules.loads(fixed)
    ensures Leads(s, acts, t, rules) && Pair(t, Some(bad), Some(bad), Updated(true), Watched)
    ensures !Accepts(rules, t.config) && !Accepts(rules, t.backup)
  {
    acts, t := BothJudged(s, good, bad, rules);
    acts, t := BrokenBytesReachTheBackup(s, acts, t, good, bad, fixed, change, rules);
    acts, t := UpdateIsSaved(s, acts, t, bad, fixed, rules);
    acts, t := SavedUpdateIsLost(s, acts, t, bad, fixed, rules);
  }
}
