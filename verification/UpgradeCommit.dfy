// When the portable upgrade commits, and that it can (portable_upgrade.go): no upgrade is kept unless its own
// probe reported readiness, and every step of an undisturbed upgrade leads on to the next.
module UpgradeCommit {
  import opened Wrappers
  import opened Upgrade
  import opened UpgradeInvariant
  import opened UpgradeSafety

  // ---------------------------------------------------------------------------
  // What was confirmed
  // ---------------------------------------------------------------------------

  // At this moment of the run the probe of this upgrade reports that the installed program is ready.
  ghost predicate ReadyAt(s: State, actions: seq<Action>, k: int, pkg: Files, m: Marker, id: nat) {
    && 0 <= k < |actions| && actions[k] == ProbeExit(id, true)
    && var t := Run(s, actions[..k]);
       t.phase == Probing(pkg, m, id) && id in t.probes && t.probes[id] == Active(m)
  }

  ghost predicate WasReady(s: State, actions: seq<Action>, pkg: Files, m: Marker) {
    exists k, id: nat :: ReadyAt(s, actions, k, pkg, m, id)
  }

  // What the updater knows of its probe has happened.
  ghost predicate Confirmed(s: State, actions: seq<Action>) {
    var t := Run(s, actions);
    && (t.phase.Probing? && t.phase.probe in t.probes && t.probes[t.phase.probe] == Exited(true) ==>
          WasReady(s, actions, t.phase.pkg, t.phase.m))
    && (t.phase.Verified? ==> WasReady(s, actions, t.phase.pkg, t.phase.m))
  }

  // A probe counts as ready only when it exits so, under the marker of the upgrade it belongs to.
  lemma ReadyStep(s: State, a: Action)
    requires Inv(s) && Apply(s, a).phase.Probing?
    requires var p := Apply(s, a).phase; p.probe in Apply(s, a).probes && Apply(s, a).probes[p.probe] == Exited(true)
    ensures s.phase == Apply(s, a).phase && s.phase.probe in s.probes
    ensures var id := s.phase.probe;
            s.probes[id] == Exited(true) || (a == ProbeExit(id, true) && s.probes[id] == Active(s.phase.m))
  {
    if a.ProbeRead? || a.ProbeLock? || a.ProbeRecheck? || a.ProbeWrite? || a.ProbeExit? {
      ReadyProbes(s, a);
    } else if a.Die? || a.ServeStart? || a.ServeWrite? || a.ServeStop? || a.Tamper? || a.LoseRuntime? {
      WorldProbes(s, a);
    } else if s.phase.Recovering? || HoldsSnapshot(s.phase) {
      NoProbeInRecovery(s, a);
    } else if s.phase.Installing? {
      ReplacePackage(s, a);
    } else if s.phase.Installed? || s.phase.Probing? || s.phase.Verified? {
      ReadyConfirm(s, a);
    } else {
      NoProbeInPreparation(s, a);
    }
  }

  lemma ReadyProbes(s: State, a: Action)
    requires Inv(s) && s.phase.Probing?
    requires s.phase.probe in Probes(s, a).probes && Probes(s, a).probes[s.phase.probe] == Exited(true)
    ensures s.phase.probe in s.probes
    ensures var id := s.phase.probe;
            s.probes[id] == Exited(true) || (a == ProbeExit(id, true) && s.probes[id] == Active(s.phase.m))
  {}

  lemma WorldProbes(s: State, a: Action)
    ensures World(s, a).probes == s.probes && (World(s, a).phase == s.phase || World(s, a).phase.Idle?)
  {}

  lemma ReadyConfirm(s: State, a: Action)
    requires s.phase.Installed? || s.phase.Probing? || s.phase.Verified?
    ensures var t := Confirm(s, a);
            t.phase.Probing? && t.phase.probe in t.probes && t.probes[t.phase.probe] == Exited(true) ==>
              t.phase == s.phase && t.probes == s.probes
  {}

  lemma NoProbeInRecovery(s: State, a: Action)
    requires s.phase.Recovering? || HoldsSnapshot(s.phase)
    ensures !Recover(s, a).phase.Probing? && !Recover(s, a).phase.Verified?
  {
    if s.phase.Restoring? { RestoringOn(s, a); }
  }

  lemma RestoringOn(s: State, a: Action)
    requires s.phase.Restoring?
    ensures RestoreEntry(s, a).phase.Restoring? || RestoreEntry(s, a).phase.RuntimeStep?
  {}

  lemma NoProbeInPreparation(s: State, a: Action)
    requires !s.phase.Probing? && !s.phase.Verified?
    ensures !Prepare(s, a).phase.Probing? && !Prepare(s, a).phase.Verified?
  {
    if s.phase.Idle? || s.phase.Checking? { NoProbeAtFirst(s, a); } else if s.phase.Copying? { NoProbeInCopy(s, a); }
  }

  lemma NoProbeAtFirst(s: State, a: Action)
    requires s.phase.Idle? || s.phase.Checking?
    ensures !Begin(s, a).phase.Probing? && !Begin(s, a).phase.Verified?
  {}

  lemma NoProbeInCopy(s: State, a: Action)
    requires s.phase.Copying?
    ensures !Copy(s, a).phase.Probing? && !Copy(s, a).phase.Verified?
  {}

  // The updater goes on to the commit only after its probe exited ready.
  lemma VerifiedStep(s: State, a: Action)
    requires Apply(s, a).phase.Verified?
    ensures var p := Apply(s, a).phase;
            s.phase == p || (s.phase.Probing? && s.phase.pkg == p.pkg && s.phase.m == p.m && s.phase.probe in s.probes
                             && s.probes[s.phase.probe] == Exited(true))
  {
    if a.ProbeRead? || a.ProbeLock? || a.ProbeRecheck? || a.ProbeWrite? || a.ProbeExit? {
    } else if a.Die? || a.ServeStart? || a.ServeWrite? || a.ServeStop? || a.Tamper? || a.LoseRuntime? {
      WorldProbes(s, a);
    } else if s.phase.Recovering? || HoldsSnapshot(s.phase) {
      NoProbeInRecovery(s, a);
    } else if s.phase.Installing? {
      ReplacePackage(s, a);
    } else if s.phase.Installed? || s.phase.Probing? || s.phase.Verified? {
    } else {
      NoProbeInPreparation(s, a);
    }
  }

  lemma ReadyStays(s: State, before: seq<Action>, a: Action, pkg: Files, m: Marker)
    requires WasReady(s, before, pkg, m)
    ensures WasReady(s, before + [a], pkg, m)
  {
    var k, id: nat :| ReadyAt(s, before, k, pkg, m, id);
    assert (before + [a])[..k] == before[..k];
    assert ReadyAt(s, before + [a], k, pkg, m, id);
  }

  lemma ReadyNow(s: State, before: seq<Action>, m: Marker, pkg: Files, id: nat)
    requires var t := Run(s, before); t.phase == Probing(pkg, m, id) && id in t.probes && t.probes[id] == Active(m)
    ensures WasReady(s, before + [ProbeExit(id, true)], pkg, m)
  {
    assert (before + [ProbeExit(id, true)])[..|before|] == before;
    assert ReadyAt(s, before + [ProbeExit(id, true)], |before|, pkg, m, id);
  }

  lemma RunSnoc(s: State, before: seq<Action>, a: Action)
    ensures Run(s, before + [a]) == Apply(Run(s, before), a)
  {
    RunConcat(s, before, [a]);
    RunOne(Run(s, before), a);
  }

  lemma ConfirmedNext(s: State, before: seq<Action>, a: Action)
    requires Inv(Run(s, before)) && Confirmed(s, before)
    ensures Confirmed(s, before + [a])
  {
    var t, u := Run(s, before), Apply(Run(s, before), a);
    RunSnoc(s, before, a);
    if u.phase.Probing? && u.phase.probe in u.probes && u.probes[u.phase.probe] == Exited(true) {
      ReadyStep(t, a);
      if t.probes[t.phase.probe] == Exited(true) {
        ReadyStays(s, before, a, t.phase.pkg, t.phase.m);
      } else {
        ReadyNow(s, before, t.phase.m, t.phase.pkg, t.phase.probe);
      }
    }
    if u.phase.Verified? {
      VerifiedStep(t, a);
      ReadyStays(s, before, a, t.phase.pkg, t.phase.m);
    }
  }

  lemma {:induction false} RunConfirmed(s: State, actions: seq<Action>)
    requires Init(s)
    ensures Confirmed(s, actions)
  {
    if actions != [] {
      var before, a := actions[..|actions| - 1], actions[|actions| - 1];
      assert actions == before + [a];
      RunConfirmed(s, before);
      InitInv(s);
      RunKeepsInv(s, before);
      ConfirmedNext(s, before, a);
    }
  }

  // The step that removes a marker without having restored it.
  ghost predicate Commits(s: State, t: State, m: Marker) {
    s.marker == Some(m) && t.marker != Some(m) && !s.phase.Finishing?
  }

  lemma CommitStep(s: State, a: Action, m: Marker)
    requires Inv(s) && s.marker == Some(m)
    ensures s.phase.Finishing? || Apply(s, a).marker == Some(m) || (s.phase.Verified? && s.phase.m == m && a.Commit?)
    ensures Apply(s, a).current != s.current ==> s.phase.Verified? && s.phase.m == m && a.Commit?
  {
    if a.Die? || a.ServeStart? || a.ServeWrite? || a.ServeStop? || a.Tamper? || a.LoseRuntime? {
      WorldCommitsNothing(s, a);
    } else if a.ProbeRead? || a.ProbeLock? || a.ProbeRecheck? || a.ProbeWrite? || a.ProbeExit? {
    } else {
      UpdaterCommits(s, a, m);
    }
  }

  lemma UpdaterCommits(s: State, a: Action, m: Marker)
    requires Inv(s) && s.marker == Some(m)
    requires !(a.Die? || a.ServeStart? || a.ServeWrite? || a.ServeStop? || a.Tamper? || a.LoseRuntime?)
    requires !(a.ProbeRead? || a.ProbeLock? || a.ProbeRecheck? || a.ProbeWrite? || a.ProbeExit?)
    ensures s.phase.Finishing? || Apply(s, a).marker == Some(m) || (s.phase.Verified? && s.phase.m == m && a.Commit?)
    ensures Apply(s, a).current != s.current ==> s.phase.Verified? && s.phase.m == m && a.Commit?
  {
    if s.phase.Recovering? || HoldsSnapshot(s.phase) {
      OnlyFinishRetires(s, a);
    } else if s.phase.Installing? {
      ReplaceMoves(s, a);
    } else if s.phase.Installed? || s.phase.Probing? || s.phase.Verified? {
      OnlyCommitRetires(s, a);
    } else {
      UnsealedHistory(s, a);
      NothingCommitted(s, a);
    }
  }

  lemma WorldCommitsNothing(s: State, a: Action)
    ensures World(s, a).marker == s.marker && World(s, a).current == s.current
  {}

  lemma OnlyCommitRetires(s: State, a: Action)
    requires s.phase.Installed? || s.phase.Probing? || s.phase.Verified?
    ensures (Confirm(s, a).marker == s.marker && Confirm(s, a).current == s.current)
            || (s.phase.Verified? && a.Commit?)
  {}

  lemma OnlyFinishRetires(s: State, a: Action)
    requires s.phase.Recovering? || HoldsSnapshot(s.phase)
    ensures s.phase.Finishing? || Recover(s, a).marker == s.marker
    ensures Recover(s, a).current == s.current
  {
    if s.phase.Restoring? { RestoreEntryHistory(s, a); }
  }

  lemma NothingCommitted(s: State, a: Action)
    ensures Prepare(s, a).current == s.current
  {
    if s.phase.Idle? || s.phase.Checking? { BeginCommitsNothing(s, a); }
  }

  lemma BeginCommitsNothing(s: State, a: Action)
    requires s.phase.Idle? || s.phase.Checking?
    ensures Begin(s, a).current == s.current
  {}

  // Whatever dies whenever: a new program is kept, and its marker removed without a restore, only after the
  // probe that this upgrade had started, running the completely installed package under this marker, exited
  // ready.
  lemma CommitFollowsReadyProbe(s: State, actions: seq<Action>, a: Action, m: Marker)
    requires Init(s) && Run(s, actions).marker == Some(m)
    requires var t := Run(s, actions); Commits(t, Apply(t, a), m) || Apply(t, a).current != t.current
    ensures var t := Run(s, actions);
            && t.phase.Verified? && Apply(t, a).current == t.phase.pkg == ProgramOf(t.files)
            && WasReady(s, actions, t.phase.pkg, m)
  {
    InitInv(s);
    RunKeepsInv(s, actions);
    RunConfirmed(s, actions);
    CommitStep(Run(s, actions), a, m);
    CommitTakesPackage(Run(s, actions));
  }

  lemma CommitTakesPackage(s: State)
    requires s.phase.Verified?
    ensures Apply(s, Commit) == s.(phase := Idle, marker := None, retired := s.retired + {s.phase.m.token},
                                   current := s.phase.pkg)
  {}

  // While its probe reports, the whole package is in place.
  lemma ReadyProgramIsWhole(s: State, actions: seq<Action>, k: int, pkg: Files, m: Marker, id: nat)
    requires Init(s) && ReadyAt(s, actions, k, pkg, m, id)
    ensures ProgramOf(Run(s, actions[..k]).files) == pkg && Run(s, actions[..k]).marker == Some(m)
  {
    InitInv(s);
    RunKeepsInv(s, actions[..k]);
  }

  // ---------------------------------------------------------------------------
  // An undisturbed upgrade
  // ---------------------------------------------------------------------------

  lemma Spawns(s: State, id: nat)
    requires s.phase.Installed? && id !in s.probes
    ensures Apply(s, SpawnProbe(id)) == s.(phase := Probing(s.phase.pkg, s.phase.m, id),
                                           probes := s.probes[id := Spawned(s.phase.m.token)])
  {}

  lemma ReadsAndLocks(s: State, m: Marker, id: nat)
    requires s.marker == Some(m) && id in s.probes && s.probes[id] == Spawned(m.token) && m.backup !in s.locks
    ensures Run(s, [ProbeRead(id), ProbeLock(id)])
            == s.(probes := s.probes[id := Locked(m)], locks := s.locks[m.backup := ByProbe(id)])
  {
    var read := s.(probes := s.probes[id := Read(m)]);
    RunTwo(s, ProbeRead(id), ProbeLock(id));
    assert Apply(s, ProbeRead(id)) == read;
    assert read.probes[id := Locked(m)] == s.probes[id := Locked(m)];
  }

  lemma RechecksAndExits(s: State, m: Marker, id: nat)
    requires s.marker == Some(m) && id in s.probes && s.probes[id] == Locked(m)
    ensures Run(s, [ProbeRecheck(id), ProbeExit(id, true)])
            == s.(probes := s.probes[id := Exited(true)], locks := ReleaseProbe(s.locks, id))
  {
    var active := s.(probes := s.probes[id := Active(m)]);
    RunTwo(s, ProbeRecheck(id), ProbeExit(id, true));
    assert Apply(s, ProbeRecheck(id)) == active;
    assert active.probes[id := Exited(true)] == s.probes[id := Exited(true)];
  }

  lemma Awaits(s: State, id: nat)
    requires s.phase.Probing? && s.phase.probe == id && id in s.probes && s.probes[id] == Exited(true)
    ensures Apply(s, AwaitProbe) == s.(phase := Verified(s.phase.pkg, s.phase.m))
  {}

  lemma Accepts(s: State, id: nat)
    requires s.phase.Probing? && s.phase.probe == id && id in s.probes && s.probes[id] == Exited(true)
    ensures Run(s, [AwaitProbe, Commit]) == s.(phase := Idle, marker := None,
                                               retired := s.retired + {s.phase.m.token}, current := s.phase.pkg)
  {
    RunTwo(s, AwaitProbe, Commit);
    Awaits(s, id);
    CommitTakesPackage(s.(phase := Verified(s.phase.pkg, s.phase.m)));
  }

  // A probe that is not disturbed confirms the installed program, and the upgrade is kept.
  lemma ReadyProbeCommits(s: State, m: Marker, id: nat) returns (actions: seq<Action>)
    requires s.phase.Installed? && s.phase.m == m && s.marker == Some(m) && m.backup !in s.locks && id !in s.probes
    ensures var t := Run(s, actions);
            t.phase.Idle? && t.marker.None? && t.current == s.phase.pkg && t.files == s.files
            && t.snapshots == s.snapshots
  {
    Spawns(s, id);
    var spawned := Apply(s, SpawnProbe(id));
    ReadsAndLocks(spawned, m, id);
    var locked := Run(spawned, [ProbeRead(id), ProbeLock(id)]);
    RechecksAndExits(locked, m, id);
    var ready := Run(locked, [ProbeRecheck(id), ProbeExit(id, true)]);
    Accepts(ready, id);
    RunOne(s, SpawnProbe(id));
    var a, b, c, d := [SpawnProbe(id)], [ProbeRead(id), ProbeLock(id)], [ProbeRecheck(id), ProbeExit(id, true)],
      [AwaitProbe, Commit];
    RunConcat(s, a, b);
    RunConcat(s, a + b, c);
    RunConcat(s, a + b + c, d);
    actions := a + b + c + d;
  }

  // One program entry, then the next.
  lemma InstallOne(s: State, pkg: Files, m: Marker, k: nat) returns (t: State)
    requires s.phase == Installing(pkg, m, k, false) && k < |PROGRAM|
    ensures t == Run(s, [Clear, Place])
    ensures t.phase == (if k + 1 == |PROGRAM| then Installed(pkg, m) else Installing(pkg, m, k + 1, false))
    ensures t.marker == s.marker && t.locks == s.locks && t.probes == s.probes && t.snapshots == s.snapshots
            && t.tokens == s.tokens
    ensures forall n :: n != PROGRAM[k] ==> Get(t.files, n) == Get(s.files, n)
  {
    RunTwo(s, Clear, Place);
    ApplyInstalling(s, Clear);
    var cleared := Replace(s, Clear);
    assert cleared == s.(files := Put(s.files, PROGRAM[k], None), phase := Installing(pkg, m, k, true));
    ApplyInstalling(cleared, Place);
    t := Replace(cleared, Place);
  }

  lemma ApplyInstalling(s: State, a: Action)
    requires s.phase.Installing? && (a.Clear? || a.Place?)
    ensures Apply(s, a) == Replace(s, a)
  {}

  lemma {:induction false} FinishInstall(s: State, pkg: Files, m: Marker, k: nat) returns (actions: seq<Action>)
    requires s.phase == Installing(pkg, m, k, false) && k < |PROGRAM|
    ensures var t := Run(s, actions);
            && t.phase == Installed(pkg, m) && t.marker == s.marker && t.locks == s.locks && t.probes == s.probes
            && t.snapshots == s.snapshots && forall n :: !IsProgram(n) ==> Get(t.files, n) == Get(s.files, n)
    decreases |PROGRAM| - k
  {
    var t := InstallOne(s, pkg, m, k);
    actions := [Clear, Place];
    assert IsProgram(PROGRAM[k]);
    if k + 1 < |PROGRAM| {
      var rest := FinishInstall(t, pkg, m, k + 1);
      RunConcat(s, [Clear, Place], rest);
      actions := [Clear, Place] + rest;
    }
  }

  // One entry into the cold backup.
  lemma CopyOne(s: State, pkg: Files, b: nat, todo: set<Name>, n: Name)
    requires s.phase == Copying(pkg, b, todo) && b in s.snapshots && n in todo && n in s.files
    ensures Apply(s, CopyEntry(n)) == s.(phase := Copying(pkg, b, todo - {n}),
                                         snapshots := s.snapshots[b := s.snapshots[b][n := s.files[n]]])
  {
    assert Apply(s, CopyEntry(n)) == Copy(s, CopyEntry(n));
  }

  // What a backup holds and what it still lacks is the whole that is to be copied.
  ghost predicate Filling(files: Files, whole: set<Name>, snapshot: Files, todo: set<Name>) {
    && whole <= files.Keys && todo <= whole && snapshot.Keys == whole - todo
    && forall n :: n in snapshot ==> snapshot[n] == files[n]
  }

  lemma FilledOne(files: Files, whole: set<Name>, snapshot: Files, todo: set<Name>, n: Name)
    requires Filling(files, whole, snapshot, todo) && n in todo
    ensures n in files && Filling(files, whole, snapshot[n := files[n]], todo - {n})
  {}

  lemma {:induction false} FinishCopy(s: State, pkg: Files, b: nat, whole: set<Name>, todo: set<Name>)
    returns (actions: seq<Action>)
    requires s.phase == Copying(pkg, b, todo) && b in s.snapshots
    requires Filling(s.files, whole, s.snapshots[b], todo)
    ensures Run(s, actions) == s.(phase := Copying(pkg, b, {}),
                                  snapshots := s.snapshots[b := map n | n in whole :: s.files[n]])
    decreases todo
  {
    if todo == {} {
      actions := [];
      assert s.snapshots[b] == map n | n in whole :: s.files[n];
      assert s.snapshots[b := s.snapshots[b]] == s.snapshots;
    } else {
      var n :| n in todo;
      CopyOne(s, pkg, b, todo, n);
      var t := Apply(s, CopyEntry(n));
      FilledOne(s.files, whole, s.snapshots[b], todo, n);
      var rest := FinishCopy(t, pkg, b, whole, todo - {n});
      RunOne(s, CopyEntry(n));
      RunConcat(s, [CopyEntry(n)], rest);
      actions := [CopyEntry(n)] + rest;
      assert t.snapshots[b := map n | n in whole :: s.files[n]] == s.snapshots[b := map n | n in whole :: s.files[n]];
    }
  }

  lemma Begins(s: State, pkg: Files, b: nat, bundled: bool)
    requires s.phase.Idle? && !s.serving && s.marker.None? && b !in s.snapshots
    requires HasProgram(pkg) && pkg == ProgramOf(pkg)
    ensures Run(s, [StartUpdater, BeginBackup(pkg, b, bundled)])
            == s.(phase := Copying(pkg, b, ToCopy(s.files, bundled)), snapshots := s.snapshots[b := map[]])
  {
    RunTwo(s, StartUpdater, BeginBackup(pkg, b, bundled));
    StartsChecking(s);
  }

  lemma Seals(s: State, pkg: Files, b: nat, token: nat)
    requires s.phase == Copying(pkg, b, {}) && b in s.snapshots && token !in s.tokens
    requires HasProgram(s.snapshots[b]) && Config in s.snapshots[b]
    ensures var m := Marker(b, token, Digest(s.snapshots[b]), true);
            Run(s, [Seal(token), WriteMarker]) == s.(phase := Installing(pkg, m, 0, false), marker := Some(m),
                                                     before := s.files, tokens := s.tokens + {token})
  {
    var m := Marker(b, token, Digest(s.snapshots[b]), true);
    RunTwo(s, Seal(token), WriteMarker);
    SealOnly(s, pkg, b, token);
    MarkerOnly(s.(phase := Sealed(pkg, m), tokens := s.tokens + {token}));
  }

  lemma SealOnly(s: State, pkg: Files, b: nat, token: nat)
    requires s.phase == Copying(pkg, b, {}) && b in s.snapshots && token !in s.tokens
    requires HasProgram(s.snapshots[b]) && Config in s.snapshots[b]
    ensures Apply(s, Seal(token)) == s.(phase := Sealed(pkg, Marker(b, token, Digest(s.snapshots[b]), true)),
                                        tokens := s.tokens + {token})
  {}

  lemma MarkerOnly(s: State)
    requires s.phase.Sealed?
    ensures Apply(s, WriteMarker) == s.(phase := Installing(s.phase.pkg, s.phase.m, 0, false),
                                        marker := Some(s.phase.m), before := s.files)
  {}

  // What is sealed: everything but temporary files, and a runtime only if an earlier release bundled it.
  ghost predicate ColdCopy(files: Files, snapshot: Files, bundled: bool) {
    forall n :: Get(snapshot, n) == if n == Tmp || (n == Runtime && !bundled) then None else Get(files, n)
  }

  lemma CopiedWhole(files: Files, bundled: bool, snapshot: Files)
    requires snapshot == map n | n in ToCopy(files, bundled) :: files[n]
    ensures ColdCopy(files, snapshot, bundled)
    ensures HasProgram(files) ==> HasProgram(snapshot)
    ensures Config in files ==> Config in snapshot
  {}

  // From an installation at rest to the complete backup and the marker.
  lemma ReachMarker(s: State, pkg: Files, b: nat, bundled: bool, token: nat)
    returns (actions: seq<Action>, m: Marker)
    requires s.phase.Idle? && !s.serving && s.marker.None? && b !in s.snapshots && token !in s.tokens
    requires HasProgram(s.files) && Config in s.files && HasProgram(pkg) && pkg == ProgramOf(pkg)
    ensures m.backup == b && m.keepRuntime && ColdCopy(s.files, m.digest.of, bundled)
    ensures var t := Run(s, actions);
            && t.phase == Installing(pkg, m, 0, false) && t.marker == Some(m) && t.files == s.files
            && t.locks == s.locks && t.probes == s.probes && Snapshot(t.snapshots, b) == Some(m.digest.of)
  {
    var whole := ToCopy(s.files, bundled);
    var begin, seal := [StartUpdater, BeginBackup(pkg, b, bundled)], [Seal(token), WriteMarker];
    Begins(s, pkg, b, bundled);
    var begun := Run(s, begin);
    var copy := FinishCopy(begun, pkg, b, whole, whole);
    var copied := Run(begun, copy);
    CopiedWhole(s.files, bundled, copied.snapshots[b]);
    Seals(copied, pkg, b, token);
    m := Marker(b, token, Digest(copied.snapshots[b]), true);
    RunConcat(s, begin, copy);
    RunConcat(s, begin + copy, seal);
    actions := begin + copy + seal;
  }

  // An upgrade that nothing disturbs installs the whole package, keeps everything else, leaves a complete cold
  // copy behind and removes its marker.
  lemma UndisturbedUpgradeSucceeds(s: State, pkg: Files, b: nat, bundled: bool, token: nat, id: nat)
    returns (actions: seq<Action>)
    requires Inv(s) && s.phase.Idle? && !s.serving && s.marker.None?
    requires b !in s.snapshots && b !in s.locks && token !in s.tokens && id !in s.probes
    requires HasProgram(s.files) && Config in s.files && HasProgram(pkg) && pkg == ProgramOf(pkg)
    ensures var t := Run(s, actions);
            && t.phase.Idle? && t.marker.None? && ProgramOf(t.files) == pkg == t.current
            && (forall n :: !IsProgram(n) ==> Get(t.files, n) == Get(s.files, n))
            && b in t.snapshots && ColdCopy(s.files, t.snapshots[b], bundled)
  {
    var prepare, m := ReachMarker(s, pkg, b, bundled, token);
    var marked := Run(s, prepare);
    var install := FinishInstall(marked, pkg, m, 0);
    var installed := Run(marked, install);
    var confirm := ReadyProbeCommits(installed, m, id);
    RunConcat(s, prepare, install);
    RunConcat(s, prepare + install, confirm);
    actions := prepare + install + confirm;
    RunKeepsInv(s, actions);
  }

  // ---------------------------------------------------------------------------
  // A failed probe, and the runtime
  // ---------------------------------------------------------------------------

  lemma GivesUp(s: State, id: nat)
    requires s.phase.Probing? && s.phase.probe == id && id in s.probes && s.probes[id].Exited?
    ensures Run(s, [GiveUp]) == s.(phase := Recovering(s.phase.m))
  {
    RunOne(s, GiveUp);
  }

  lemma GivesUpAndLocks(s: State, m: Marker, id: nat)
    requires Inv(s) && s.phase.Probing? && s.phase.m == m && s.phase.probe == id && s.probes[id] == Exited(false)
    requires m.backup !in s.tampered && m.backup !in s.locks
    ensures var t := Run(s, [GiveUp] + [LockSnapshot, CheckSnapshot]);
            t.phase == Restoring(m, 0, false) && t.snapshots == s.snapshots && m.backup in s.snapshots
    ensures s.marker == Some(m)
  {
    GivesUp(s, id);
    ReachRestoring(Run(s, [GiveUp]), m);
    RunConcat(s, [GiveUp], [LockSnapshot, CheckSnapshot]);
  }

  // An updater whose probe failed puts everything back itself.
  lemma FailedProbeIsTakenBack(s: State, m: Marker, id: nat) returns (actions: seq<Action>)
    requires Inv(s) && s.phase.Probing? && s.phase.m == m && s.phase.probe == id && s.probes[id] == Exited(false)
    requires m.backup !in s.tampered && m.backup !in s.locks
    ensures var t := Run(s, actions);
            t.marker.None? && t.phase.Idle? && SameOn(m, t.files, s.before) && ProgramOf(t.files) == s.current
    ensures Die !in actions
  {
    var begin := [GiveUp] + [LockSnapshot, CheckSnapshot];
    GivesUpAndLocks(s, m, id);
    var rest := FinishRestore(Run(s, begin), m);
    RunConcat(s, begin, rest);
    Finished(s, begin + rest, m);
    actions := begin + rest + [Finish];
  }

  lemma Finished(s: State, actions: seq<Action>, m: Marker)
    requires Inv(s) && s.marker == Some(m) && Run(s, actions).phase == Finishing(m)
    ensures var t := Run(s, actions + [Finish]);
            t.marker.None? && t.phase.Idle? && SameOn(m, t.files, s.before) && ProgramOf(t.files) == s.current
  {
    CompletedRestoreReturnsOriginal(s, actions, m);
    FinishIdles(Run(s, actions), m);
    RunSnoc(s, actions, Finish);
  }

  // The last step of a restore puts a runtime back exactly if an upgrade that keeps runtimes lost the whole of it.
  lemma RuntimeComesBack(s: State, m: Marker)
    requires Inv(s) && s.phase == RuntimeStep(m)
    ensures var files := Apply(s, RestoreRuntime).files;
            && Get(files, Runtime) == (if m.keepRuntime && Runtime !in s.files then Get(m.digest.of, Runtime)
                                       else Get(s.files, Runtime))
            && forall n :: n != Runtime ==> Get(files, n) == Get(s.files, n)
  {}

  // A marker is only ever written for a complete snapshot of the program and its configuration.
  lemma MarkerNamesWholeSnapshot(s: State, a: Action, m: Marker)
    requires Inv(s) && Apply(s, a).marker == Some(m) && s.marker != Some(m)
    ensures HasProgram(m.digest.of) && Config in m.digest.of && SameOn(m, m.digest.of, s.files)
    ensures Snapshot(s.snapshots, m.backup) == Some(m.digest.of) || m.backup in s.tampered
  {
    StepHistory(s, a);
  }

  // ---------------------------------------------------------------------------
  // What all this withstands
  // ---------------------------------------------------------------------------

  ghost predicate CanBecome(s: State, n: Name, t: Option<Content>) {
    exists a :: Get(Apply(s, a).files, n) == t && forall k :: k != n ==> Get(Apply(s, a).files, k) == Get(s.files, k)
  }

  // An entry that is being replaced or restored may be left as anything, and a running server may change its
  // data and temporary files in any way at any moment.
  lemma AnyDamageCanHappen(s: State, n: Name, t: Option<Content>)
    requires
      || (s.phase.Installing? && !s.phase.cleared && s.phase.k < |PROGRAM| && n == PROGRAM[s.phase.k])
      || (s.phase.Restoring? && s.phase.k < |RestoreList(s.phase.m)| && n == RestoreList(s.phase.m)[s.phase.k]
          && s.phase.m.backup in s.snapshots)
      || ((s.serving || exists id :: id in s.probes && s.probes[id].Active?) && (IsData(n) || n.Tmp?))
    ensures CanBecome(s, n, t)
  {
    if s.phase.Installing? && !s.phase.cleared && s.phase.k < |PROGRAM| && n == PROGRAM[s.phase.k] {
      InstallDamages(s, t);
      Becomes(s, Damage(t), n, t);
    } else if s.phase.Restoring? && s.phase.k < |RestoreList(s.phase.m)| && n == RestoreList(s.phase.m)[s.phase.k]
      && s.phase.m.backup in s.snapshots {
      RestoreDamages(s, t);
      Becomes(s, Damage(t), n, t);
    } else {
      ServerWrites(s, n, t);
    }
  }

  lemma ServerWrites(s: State, n: Name, t: Option<Content>)
    requires s.serving || exists id :: id in s.probes && s.probes[id].Active?
    requires IsData(n) || n.Tmp?
    ensures CanBecome(s, n, t)
  {
    if s.serving {
      ServiceWrites(s, n, t);
      Becomes(s, ServeWrite(n, t), n, t);
    } else {
      var id :| id in s.probes && s.probes[id].Active?;
      ProbeWrites(s, id, n, t);
      Becomes(s, ProbeWrite(id, n, t), n, t);
    }
  }

  lemma ServiceWrites(s: State, n: Name, t: Option<Content>)
    requires s.serving && (IsData(n) || n.Tmp?)
    ensures Apply(s, ServeWrite(n, t)).files == Put(s.files, n, t)
  {
    assert Apply(s, ServeWrite(n, t)) == World(s, ServeWrite(n, t));
  }

  lemma ProbeWrites(s: State, id: nat, n: Name, t: Option<Content>)
    requires id in s.probes && s.probes[id].Active? && (IsData(n) || n.Tmp?)
    ensures Apply(s, ProbeWrite(id, n, t)).files == Put(s.files, n, t)
  {
    assert Apply(s, ProbeWrite(id, n, t)) == Serve(s, id, n, t);
  }

  lemma Becomes(s: State, a: Action, n: Name, t: Option<Content>)
    requires Apply(s, a).files == Put(s.files, n, t)
    ensures CanBecome(s, n, t)
  {
    assert Get(Apply(s, a).files, n) == t;
  }

  lemma InstallDamages(s: State, t: Option<Content>)
    requires s.phase.Installing? && !s.phase.cleared && s.phase.k < |PROGRAM|
    ensures Apply(s, Damage(t)).files == Put(s.files, PROGRAM[s.phase.k], t)
  {}

  lemma RestoreDamages(s: State, t: Option<Content>)
    requires s.phase.Restoring? && s.phase.k < |RestoreList(s.phase.m)| && s.phase.m.backup in s.snapshots
    ensures Apply(s, Damage(t)).files == Put(s.files, RestoreList(s.phase.m)[s.phase.k], t)
  {
    assert Apply(s, Damage(t)) == RestoreEntry(s, Damage(t));
  }
}
