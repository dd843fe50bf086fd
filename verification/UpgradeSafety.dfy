// What holds over whole runs of the portable upgrade (portable_upgrade.go).
module UpgradeSafety {
  import opened Wrappers
  import opened Upgrade
  import opened UpgradeInvariant

  function Packages(actions: seq<Action>): set<Files> {
    set a | a in actions && a.BeginBackup? :: a.pkg
  }

  ghost predicate Staged(s: State, pkgs: set<Files>) {
    s.current in pkgs && (HasPackage(s.phase) ==> s.phase.pkg in pkgs)
  }

  // What a step may do to the history: nothing, write the sealed marker, or retire it.
  ghost predicate History(s: State, t: State) {
    && s.retired <= t.retired && s.tampered <= t.tampered
    && match t.marker
       case None => s.marker.None? || s.marker.value.token in t.retired
       case Some(m) => (s.marker == Some(m) && t.before == s.before) || (s.phase.Sealed? && s.phase.m == m)
  }

  ghost predicate SamePackage(s: State, t: State) {
    && (t.current == s.current || (s.phase.Verified? && t.current == s.phase.pkg))
    && (HasPackage(t.phase) ==> HasPackage(s.phase) && t.phase.pkg == s.phase.pkg)
  }

  predicate HasPackage(p: Phase) {
    p.Copying? || p.Sealed? || p.Installing? || p.Installed? || p.Probing? || p.Verified?
  }

  lemma WorldHistory(s: State, a: Action)
    ensures History(s, World(s, a)) && SamePackage(s, World(s, a))
  {}

  lemma RestoreEntryHistory(s: State, a: Action)
    requires s.phase.Restoring?
    ensures History(s, RestoreEntry(s, a)) && SamePackage(s, RestoreEntry(s, a))
  {}

  lemma RecoverHistory(s: State, a: Action)
    requires PhaseInv(s)
    ensures History(s, Recover(s, a)) && SamePackage(s, Recover(s, a))
  {
    if s.phase.Restoring? { RestoreEntryHistory(s, a); }
  }

  lemma ReplaceHistory(s: State, a: Action)
    requires s.phase.Installing?
    ensures History(s, Replace(s, a)) && SamePackage(s, Replace(s, a))
  {
    ReplaceMoves(s, a);
    ReplacePackage(s, a);
  }

  lemma ReplaceMoves(s: State, a: Action)
    requires s.phase.Installing?
    ensures var t := Replace(s, a);
            t.marker == s.marker && t.before == s.before && t.current == s.current && t.retired == s.retired
            && t.tampered == s.tampered
  {}

  lemma ReplacePackage(s: State, a: Action)
    requires s.phase.Installing?
    ensures match Replace(s, a).phase
            case Installing(pkg, _, _, _) => pkg == s.phase.pkg
            case Installed(pkg, _) => pkg == s.phase.pkg
            case p => p.Recovering?
  {}

  lemma ConfirmHistory(s: State, a: Action)
    requires PhaseInv(s)
    ensures History(s, Confirm(s, a)) && SamePackage(s, Confirm(s, a))
  {}

  // The only step that brings in a package is the start of a backup.
  ghost predicate NewPackage(s: State, a: Action, t: State) {
    a.BeginBackup? && t.phase.Copying? && t.phase.pkg == a.pkg && t.current == s.current
  }

  lemma UnsealedHistory(s: State, a: Action)
    requires !s.phase.Sealed?
    ensures var t := Prepare(s, a);
            t.retired == s.retired && t.tampered == s.tampered && t.marker == s.marker && t.before == s.before
  {}

  lemma SealedHistory(s: State, a: Action)
    requires s.phase.Sealed?
    ensures History(s, Prepare(s, a))
  {}

  lemma PrepareHistory(s: State, a: Action)
    ensures History(s, Prepare(s, a))
  {
    if s.phase.Sealed? { SealedHistory(s, a); } else { UnsealedHistory(s, a); }
  }

  lemma BeginPackage(s: State, a: Action)
    requires s.phase.Idle? || s.phase.Checking?
    ensures SamePackage(s, Begin(s, a)) || NewPackage(s, a, Begin(s, a))
  {}

  lemma CopyPackage(s: State, a: Action)
    requires s.phase.Copying?
    ensures SamePackage(s, Copy(s, a))
  {}

  lemma PreparePackage(s: State, a: Action)
    ensures SamePackage(s, Prepare(s, a)) || NewPackage(s, a, Prepare(s, a))
  {
    if s.phase.Idle? || s.phase.Checking? {
      BeginPackage(s, a);
    } else if s.phase.Copying? {
      CopyPackage(s, a);
    }
  }

  lemma StepHistory(s: State, a: Action)
    requires Inv(s)
    ensures History(s, Apply(s, a))
    ensures SamePackage(s, Apply(s, a)) || NewPackage(s, a, Apply(s, a))
  {
    if a.Die? || a.ServeStart? || a.ServeWrite? || a.ServeStop? || a.Tamper? || a.LoseRuntime? {
      WorldHistory(s, a);
    } else if a.ProbeRead? || a.ProbeLock? || a.ProbeRecheck? || a.ProbeWrite? || a.ProbeExit? {
    } else if s.phase.Recovering? || HoldsSnapshot(s.phase) {
      RecoverHistory(s, a);
    } else if s.phase.Installing? {
      ReplaceHistory(s, a);
    } else if s.phase.Installed? || s.phase.Probing? || s.phase.Verified? {
      ConfirmHistory(s, a);
    } else {
      PrepareHistory(s, a);
      PreparePackage(s, a);
    }
  }

  lemma {:induction false} RunKeepsStaged(s: State, actions: seq<Action>, pkgs: set<Files>)
    requires Inv(s) && Staged(s, pkgs)
    ensures Staged(Run(s, actions), pkgs + Packages(actions))
    decreases |actions|
  {
    if actions != [] {
      StepKeepsInv(s, actions[0]);
      StepHistory(s, actions[0]);
      assert actions[0].BeginBackup? ==> actions[0] in [actions[0]];
      RunKeepsStaged(Apply(s, actions[0]), actions[1..], pkgs + Packages([actions[0]]));
      assert actions == [actions[0]] + actions[1..];
      assert pkgs + Packages(actions) == pkgs + Packages([actions[0]]) + Packages(actions[1..]);
    }
  }

  // Whatever dies whenever: without a marker the program is, as a whole, the
  // original one or one complete package that some updater staged.
  lemma ProgramAllOldOrAllNew(s: State, actions: seq<Action>)
    requires Init(s) && Run(s, actions).marker.None?
    ensures ProgramOf(Run(s, actions).files) in {s.current} + Packages(actions)
  {
    InitInv(s);
    RunKeepsInv(s, actions);
    RunKeepsStaged(s, actions, {s.current});
  }

  lemma PrepareKeepsSnapshot(s: State, a: Action, m: Marker)
    requires MarkerInv(s) && PhaseInv(s) && s.marker == Some(m)
    ensures Snapshot(Prepare(s, a).snapshots, m.backup) == Snapshot(s.snapshots, m.backup)
  {}

  // Only a change from outside touches the snapshot a marker relies on.
  lemma SealedSnapshotUnmodified(s: State, a: Action, m: Marker)
    requires Inv(s) && s.marker == Some(m) && !(a.Tamper? && a.backup == m.backup)
    ensures m.backup in s.snapshots
    ensures Snapshot(Apply(s, a).snapshots, m.backup) == Snapshot(s.snapshots, m.backup)
  {
    if a.Die? || a.ServeStart? || a.ServeWrite? || a.ServeStop? || a.Tamper? || a.LoseRuntime? {
      WorldKeepsSnapshot(s, a, m);
    } else if s.phase.Idle? || s.phase.Checking? || s.phase.Copying? || s.phase.Sealed? {
      PrepareKeepsSnapshot(s, a, m);
    }
  }

  lemma WorldKeepsSnapshot(s: State, a: Action, m: Marker)
    requires !(a.Tamper? && a.backup == m.backup)
    ensures Snapshot(World(s, a).snapshots, m.backup) == Snapshot(s.snapshots, m.backup)
  {}

  // While recovering, the updater rewrites nothing unless the snapshot still has its recorded checksum.
  lemma NothingDeletedUnverified(s: State, a: Action)
    requires Inv(s) && (s.phase.Recovering? || HoldsSnapshot(s.phase))
    requires Recover(s, a).files != s.files
    ensures s.phase.m.backup in s.snapshots && Digest(s.snapshots[s.phase.m.backup]) == s.phase.m.digest
    ensures s.marker == Some(s.phase.m)
  {}

  // A marker stays with the same recorded files, or its token is spent for good.
  ghost predicate Follows(before: Files, t: State, m: Marker) {
    if t.marker == Some(m) then t.before == before else m.token in t.retired
  }

  lemma {:induction false} RunFollows(s: State, actions: seq<Action>, m: Marker, before: Files)
    requires Inv(s) && Follows(before, s, m)
    ensures Follows(before, Run(s, actions), m)
    decreases |actions|
  {
    if actions != [] {
      StepHistory(s, actions[0]);
      StepKeepsInv(s, actions[0]);
      RunFollows(Apply(s, actions[0]), actions[1..], m, before);
    }
  }

  // From the moment the marker is written, after any number of deaths, orphaned
  // probes and interrupted restores, one completed restore returns every program,
  // config, data, upload and log entry to what it was, and removes the marker.
  lemma CompletedRestoreReturnsOriginal(s: State, actions: seq<Action>, m: Marker)
    requires Inv(s) && s.marker == Some(m)
    requires Run(s, actions).phase == Finishing(m)
    ensures var done := Apply(Run(s, actions), Finish);
            SameOn(m, done.files, s.before) && SameOn(m, done.files, m.digest.of) && done.marker.None?
            && ProgramOf(done.files) == s.current
  {
    var t := Run(s, actions);
    RunKeepsInv(s, actions);
    RunFollows(s, actions, m, s.before);
    ProgramFromRestore(m, t.files, s.before);
  }

  // A probe writes only while it holds its snapshot's lock and the marker is the
  // one it was started for.
  lemma ProbeWritesUnderOwnMarker(s: State, id: nat, n: Name, t: Option<Content>)
    requires Inv(s) && Apply(s, ProbeWrite(id, n, t)) != s
    ensures id in s.probes && s.probes[id].Active? && s.marker == Some(s.probes[id].m)
    ensures s.probes[id].m.backup in s.locks && s.locks[s.probes[id].m.backup] == ByProbe(id)
    ensures !HoldsSnapshot(s.phase) && !s.serving && s.probes[id].m.token !in s.retired
  {}

  // Once a marker was retired, by a restore or a commit, no probe started under it ever writes again.
  lemma NoProbeWriteAfterRestore(s: State, actions: seq<Action>, m: Marker, id: nat, n: Name, t: Option<Content>)
    requires Inv(s) && m.token in s.retired
    requires id in Run(s, actions).probes && TokenOf(Run(s, actions).probes[id]) == Some(m.token)
    ensures Apply(Run(s, actions), ProbeWrite(id, n, t)) == Run(s, actions)
  {
    RunKeepsInv(s, actions);
    RunRetires(s, actions);
  }

  lemma {:induction false} RunRetires(s: State, actions: seq<Action>)
    requires Inv(s)
    ensures s.retired <= Run(s, actions).retired
    decreases |actions|
  {
    if actions != [] {
      StepHistory(s, actions[0]);
      StepKeepsInv(s, actions[0]);
      RunRetires(Apply(s, actions[0]), actions[1..]);
    }
  }

  // ---------------------------------------------------------------------------
  // Recovery is always possible
  // ---------------------------------------------------------------------------

  lemma {:induction false} RunConcat(s: State, a: seq<Action>, b: seq<Action>)
    ensures Run(s, a + b) == Run(Run(s, a), b)
    decreases |a|
  {
    if a == [] {
      assert a + b == b;
    } else {
      assert (a + b)[1..] == a[1..] + b;
      RunConcat(Apply(s, a[0]), a[1..], b);
    }
  }

  lemma RunOne(s: State, a: Action)
    ensures Run(s, [a]) == Apply(s, a)
  {
    assert [a][1..] == [];
  }

  lemma RunTwo(s: State, a: Action, b: Action)
    ensures Run(s, [a, b]) == Apply(Apply(s, a), b)
  {
    assert [a, b] == [a] + [b];
    RunConcat(s, [a], [b]);
    RunOne(s, a);
    RunOne(Apply(s, a), b);
  }

  // One entry, then the next.
  lemma RestoreOne(s: State, m: Marker) returns (placed: State)
    requires s.phase.Restoring? && s.phase.m == m && m.backup in s.snapshots && s.phase.k < |RestoreList(m)|
    ensures placed == Run(s, [Clear, Place]) && placed.snapshots == s.snapshots
    ensures placed.phase == (if s.phase.k + 1 == |RestoreList(m)| then RuntimeStep(m)
                             else Restoring(m, s.phase.k + 1, false))
  {
    RunTwo(s, Clear, Place);
    ApplyRestoring(s, Clear);
    placed := RestoreEntry(RestoreEntry(s, Clear), Place);
    ApplyRestoring(RestoreEntry(s, Clear), Place);
  }

  lemma ApplyRestoring(s: State, a: Action)
    requires s.phase.Restoring? && (a.Clear? || a.Place?)
    ensures Apply(s, a) == RestoreEntry(s, a)
  {}

  lemma EndRestore(s: State, m: Marker)
    requires s.phase == RuntimeStep(m)
    ensures Run(s, [RestoreRuntime]).phase == Finishing(m)
  {
    RunOne(s, RestoreRuntime);
  }

  // From inside a restore, undisturbed steps carry it to its end.
  lemma {:induction false} FinishRestore(s: State, m: Marker) returns (actions: seq<Action>)
    requires s.phase.Restoring? && s.phase.m == m && m.backup in s.snapshots && s.phase.k < |RestoreList(m)|
    ensures Run(s, actions).phase == Finishing(m) && Die !in actions
    decreases |RestoreList(m)| - s.phase.k
  {
    var placed := RestoreOne(s, m);
    var rest;
    if placed.phase.Restoring? {
      rest := FinishRestore(placed, m);
    } else {
      rest := [RestoreRuntime];
      EndRestore(placed, m);
    }
    actions := [Clear, Place] + rest;
    RunConcat(s, [Clear, Place], rest);
  }

  // Killing the holder of the snapshot lock frees it.
  lemma FreeLock(s: State, m: Marker) returns (actions: seq<Action>)
    requires Inv(s) && s.marker == Some(m)
    ensures var t := Run(s, actions);
            t.phase.Idle? && !t.serving && m.backup !in t.locks && t.marker == s.marker && t.snapshots == s.snapshots
  {
    var dead := Apply(s, Die);
    RunOne(s, Die);
    actions := [Die];
    Dies(s);
    if m.backup in dead.locks {
      var id := dead.locks[m.backup].id;
      assert Owns(s.probes, id, m.backup);
      RunTwo(s, Die, ProbeExit(id, false));
      actions := [Die, ProbeExit(id, false)];
      Frees(dead, id, m.backup);
    }
  }

  lemma Dies(s: State)
    ensures Apply(s, Die) == s.(phase := Idle, locks := ReleaseUpdater(s.locks))
  {}

  lemma Frees(s: State, id: nat, b: nat)
    requires id in s.probes && !s.probes[id].Exited? && b in s.locks && s.locks[b] == ByProbe(id)
    ensures var t := Apply(s, ProbeExit(id, false));
            b !in t.locks && t.phase == s.phase && t.serving == s.serving && t.marker == s.marker
            && t.snapshots == s.snapshots
  {}

  lemma ReachRecovering(s: State, m: Marker)
    requires s.phase.Idle? && !s.serving && s.marker == Some(m)
    ensures Run(s, [StartUpdater, RecoverFirst]) == s.(phase := Recovering(m))
  {
    RunTwo(s, StartUpdater, RecoverFirst);
    StartsChecking(s);
    RecoversFirst(s.(phase := Checking), m);
  }

  lemma StartsChecking(s: State)
    requires s.phase.Idle? && !s.serving
    ensures Apply(s, StartUpdater) == s.(phase := Checking)
  {}

  lemma RecoversFirst(s: State, m: Marker)
    requires s.phase.Checking? && s.marker == Some(m)
    ensures Apply(s, RecoverFirst) == s.(phase := Recovering(m))
  {}

  lemma ReachRestoring(s: State, m: Marker)
    requires s.phase == Recovering(m) && m.backup !in s.locks && Snapshot(s.snapshots, m.backup) == Some(m.digest.of)
    ensures Run(s, [LockSnapshot, CheckSnapshot]).phase == Restoring(m, 0, false)
    ensures Run(s, [LockSnapshot, CheckSnapshot]).snapshots == s.snapshots
  {
    RunTwo(s, LockSnapshot, CheckSnapshot);
    ApplyRecovering(s, LockSnapshot);
    ApplyRecovering(Recover(s, LockSnapshot), CheckSnapshot);
  }

  lemma ApplyRecovering(s: State, a: Action)
    requires (s.phase.Recovering? || s.phase.SnapshotLocked?) && (a.LockSnapshot? || a.CheckSnapshot?)
    ensures Apply(s, a) == Recover(s, a)
  {}

  // A fresh updater reaches the restore of an unchanged snapshot.
  lemma ReachRestore(s: State, m: Marker) returns (actions: seq<Action>)
    requires s.phase.Idle? && !s.serving && m.backup !in s.locks && s.marker == Some(m)
    requires Snapshot(s.snapshots, m.backup) == Some(m.digest.of)
    ensures Run(s, actions).phase == Restoring(m, 0, false) && Run(s, actions).snapshots == s.snapshots
  {
    ReachRecovering(s, m);
    ReachRestoring(s.(phase := Recovering(m)), m);
    actions := [StartUpdater, RecoverFirst] + [LockSnapshot, CheckSnapshot];
    RunConcat(s, [StartUpdater, RecoverFirst], [LockSnapshot, CheckSnapshot]);
  }

  lemma ReachFinish(s: State, m: Marker) returns (actions: seq<Action>)
    requires Inv(s) && s.marker == Some(m) && m.backup !in s.tampered
    ensures Run(s, actions).phase == Finishing(m)
  {
    var free := FreeLock(s, m);
    var begin := ReachRestore(Run(s, free), m);
    RunConcat(s, free, begin);
    RunKeepsInv(s, free + begin);
    var rest := FinishRestore(Run(s, free + begin), m);
    RunConcat(s, free + begin, rest);
    actions := free + begin + rest;
  }

  lemma FinishIdles(s: State, m: Marker)
    requires s.phase == Finishing(m)
    ensures Apply(s, Finish).phase.Idle?
  {}

  // As long as its snapshot was not changed from outside, an interrupted upgrade
  // can always be taken back: some run removes the marker with everything restored.
  lemma RecoveryAlwaysPossible(s: State, m: Marker) returns (actions: seq<Action>)
    requires Inv(s) && s.marker == Some(m) && m.backup !in s.tampered
    ensures var t := Run(s, actions);
            t.marker.None? && t.phase.Idle? && SameOn(m, t.files, s.before)
  {
    var restored := ReachFinish(s, m);
    CompletedRestoreReturnsOriginal(s, restored, m);
    FinishIdles(Run(s, restored), m);
    actions := restored + [Finish];
    RunConcat(s, restored, [Finish]);
    RunOne(Run(s, restored), Finish);
  }

  // ---------------------------------------------------------------------------
  // The separately installed runtime
  // ---------------------------------------------------------------------------

  // A runtime that upgrades keep is the one found at the start, or the complete
  // cold copy of it, or gone: never part of one.
  ghost predicate RuntimeWhole(s: State) {
    s.marker.Some? && s.marker.value.keepRuntime && Runtime in s.files ==>
      Get(s.files, Runtime) == Get(s.before, Runtime) || Get(s.files, Runtime) == Get(s.marker.value.digest.of, Runtime)
  }

  lemma ReplaceKeepsRuntime(s: State, a: Action)
    requires s.phase.Installing?
    ensures Get(Replace(s, a).files, Runtime) == Get(s.files, Runtime)
  {
    if s.phase.k < |PROGRAM| { assert PROGRAM[s.phase.k] != Runtime; }
  }

  lemma RestoreEntryKeepsRuntime(s: State, a: Action)
    requires s.phase.Restoring? && s.phase.m.keepRuntime
    ensures Get(RestoreEntry(s, a).files, Runtime) == Get(s.files, Runtime)
  {
    if s.phase.k < |RestoreList(s.phase.m)| { assert RestoreList(s.phase.m)[s.phase.k] != Runtime; }
  }

  lemma RecoverKeepsRuntime(s: State, a: Action)
    requires MarkerInv(s) && PhaseInv(s) && (s.phase.Recovering? || HoldsSnapshot(s.phase)) && s.phase.m.keepRuntime
    ensures var r := Get(Recover(s, a).files, Runtime);
            r == Get(s.files, Runtime) || r == Get(s.phase.m.digest.of, Runtime)
  {
    if s.phase.Restoring? { RestoreEntryKeepsRuntime(s, a); }
  }

  lemma WorldKeepsRuntime(s: State, a: Action)
    ensures var r := Get(World(s, a).files, Runtime); r == Get(s.files, Runtime) || r.None?
  {}

  lemma ProbesKeepRuntime(s: State, a: Action)
    ensures Get(Probes(s, a).files, Runtime) == Get(s.files, Runtime)
  {}

  // Within one marker's life only the last step of its restore puts a runtime in place.
  lemma StepKeepsRuntime(s: State, a: Action, m: Marker)
    requires MarkerInv(s) && PhaseInv(s) && s.marker == Some(m) && m.keepRuntime
    ensures var r := Get(Apply(s, a).files, Runtime);
            r == Get(s.files, Runtime) || r.None? || r == Get(m.digest.of, Runtime)
  {
    if a.Die? || a.ServeStart? || a.ServeWrite? || a.ServeStop? || a.Tamper? || a.LoseRuntime? {
      WorldKeepsRuntime(s, a);
    } else if a.ProbeRead? || a.ProbeLock? || a.ProbeRecheck? || a.ProbeWrite? || a.ProbeExit? {
      ProbesKeepRuntime(s, a);
    } else if s.phase.Recovering? || HoldsSnapshot(s.phase) {
      RecoverKeepsRuntime(s, a);
    } else if s.phase.Installing? {
      ReplaceKeepsRuntime(s, a);
    }
  }

  lemma {:induction false} RuntimeNeverPartial(s: State, actions: seq<Action>, m: Marker)
    requires Inv(s) && s.marker == Some(m) && m.keepRuntime && RuntimeWhole(s)
    requires forall k :: 0 <= k <= |actions| ==> Run(s, actions[..k]).marker == Some(m)
    ensures RuntimeWhole(Run(s, actions))
  {
    if actions == [] {
    } else {
      var n := |actions| - 1;
      assert forall k :: 0 <= k <= n ==> actions[..n][..k] == actions[..k];
      RuntimeNeverPartial(s, actions[..n], m);
      assert actions == actions[..n] + [actions[n]];
      RunConcat(s, actions[..n], [actions[n]]);
      RunOne(Run(s, actions[..n]), actions[n]);
      RunKeepsInv(s, actions[..n]);
      RunFollows(s, actions[..n], m, s.before);
      RunFollows(s, actions, m, s.before);
      assert actions[..|actions|] == actions;
      StepKeepsRuntime(Run(s, actions[..n]), actions[n], m);
    }
  }
}
