// What every step of the portable upgrade keeps (portable_upgrade.go).
module UpgradeInvariant {
  import opened Wrappers
  import opened Upgrade

  ghost predicate SameOn(m: Marker, a: Files, b: Files) {
    forall n :: Restores(m, n) ==> Get(a, n) == Get(b, n)
  }

  // The sealed snapshot holds what the restored entries contained when the marker was written.
  ghost predicate Backed(s: State, m: Marker) {
    && m.backup in s.snapshots
    && (m.backup !in s.tampered ==> s.snapshots[m.backup] == m.digest.of)
    && m.token in s.tokens && m.token !in s.retired
  }

  ghost predicate MarkerInv(s: State) {
    match s.marker
    case None => ProgramOf(s.files) == s.current
    case Some(m) => Backed(s, m) && SameOn(m, m.digest.of, s.before) && ProgramOf(s.before) == s.current
  }

  function PhaseMarker(p: Phase): Option<Marker> {
    match p
    case Idle | Checking | Copying(_, _, _) => None
    case Sealed(_, m) => Some(m)
    case Installing(_, m, _, _) => Some(m)
    case Installed(_, m) => Some(m)
    case Probing(_, m, _) => Some(m)
    case Verified(_, m) => Some(m)
    case Recovering(m) => Some(m)
    case SnapshotLocked(m) => Some(m)
    case Restoring(m, _, _) => Some(m)
    case RuntimeStep(m) => Some(m)
    case Finishing(m) => Some(m)
  }

  // How far the files (and, while it is taken, the snapshot) have come in each phase.
  ghost predicate Progress(p: Phase, marker: Option<Marker>, files: Files, snapshots: map<nat, Files>) {
    match p
    case Copying(pkg, b, todo) =>
      && marker.None? && pkg == ProgramOf(pkg) && b in snapshots
      && (forall n :: n in snapshots[b] ==> Get(snapshots[b], n) == Get(files, n))
      && (forall n :: n in files && (IsProgram(n) || IsData(n)) ==> n in snapshots[b] || n in todo)
    case Sealed(pkg, m) =>
      && marker.None? && pkg == ProgramOf(pkg) && m.keepRuntime && SameOn(m, m.digest.of, files)
      && HasProgram(m.digest.of) && Config in m.digest.of
    case Installing(pkg, m, k, cleared) =>
      && pkg == ProgramOf(pkg) && m.keepRuntime && k < |PROGRAM|
      && (forall j :: 0 <= j < k ==> Get(files, PROGRAM[j]) == Get(pkg, PROGRAM[j]))
    case Installed(pkg, _) => ProgramOf(files) == pkg
    case Probing(pkg, _, _) => ProgramOf(files) == pkg
    case Verified(pkg, _) => ProgramOf(files) == pkg
    case Restoring(m, k, cleared) =>
      && k < |RestoreList(m)| && Snapshot(snapshots, m.backup) == Some(m.digest.of)
      && (forall j :: 0 <= j < k ==> Get(files, RestoreList(m)[j]) == Get(m.digest.of, RestoreList(m)[j]))
    case RuntimeStep(m) => Snapshot(snapshots, m.backup) == Some(m.digest.of) && SameOn(m, files, m.digest.of)
    case Finishing(m) => SameOn(m, files, m.digest.of)
    case _ => true
  }

  function Snapshot(snapshots: map<nat, Files>, b: nat): Option<Files>
  {
    if b in snapshots then Some(snapshots[b]) else None
  }

  ghost predicate Serialized(p: Phase, marker: Option<Marker>, locks: map<nat, Holder>) {
    && (PhaseMarker(p).Some? && !p.Sealed? ==> marker == PhaseMarker(p))
    && (HoldsSnapshot(p) ==> p.m.backup in locks && locks[p.m.backup] == ByUpdater)
  }

  ghost predicate PhaseInv(s: State) {
    && (s.serving ==> s.phase.Idle? && s.marker.None?)
    && (s.phase.Sealed? ==> Backed(s, s.phase.m))
    && (s.phase.Probing? ==> s.phase.probe in s.probes)
    && Serialized(s.phase, s.marker, s.locks)
    && Progress(s.phase, s.marker, s.files, s.snapshots)
  }

  // The token a live probe knows.
  function TokenOf(p: Probe): Option<nat> {
    match p
    case Spawned(token) => Some(token)
    case Read(m) => Some(m.token)
    case Locked(m) => Some(m.token)
    case Active(m) => Some(m.token)
    case Exited(_) => None
  }

  ghost predicate Unknown(probes: map<nat, Probe>, token: nat, except: set<nat>) {
    forall id :: id in probes && id !in except ==> TokenOf(probes[id]) != Some(token)
  }

  ghost predicate Owns(probes: map<nat, Probe>, id: nat, b: nat) {
    id in probes && (probes[id].Locked? || probes[id].Active?) && probes[id].m.backup == b
  }

  // Exactly the probes past the lock step hold snapshot locks.
  ghost predicate Owners(probes: map<nat, Probe>, locks: map<nat, Holder>) {
    && (forall id :: id in probes && (probes[id].Locked? || probes[id].Active?) ==>
          probes[id].m.backup in locks && locks[probes[id].m.backup] == ByProbe(id))
    && (forall b :: b in locks && locks[b].ByProbe? ==> Owns(probes, locks[b].id, b))
  }

  // A probe past its second check runs under a marker that is still its own.
  ghost predicate Current(probes: map<nat, Probe>, marker: Option<Marker>) {
    forall id :: id in probes && probes[id].Active? ==> marker == Some(probes[id].m)
  }

  ghost predicate Drawn(probes: map<nat, Probe>, tokens: set<nat>) {
    forall id :: id in probes && TokenOf(probes[id]).Some? ==> TokenOf(probes[id]).value in tokens
  }

  ghost predicate ProbeInv(s: State) {
    Owners(s.probes, s.locks) && Current(s.probes, s.marker) && Drawn(s.probes, s.tokens)
  }

  // Until the updater starts its probe no process knows the token; afterwards only that probe does.
  ghost predicate Private(p: Phase, probes: map<nat, Probe>) {
    match p
    case Sealed(_, m) => Unknown(probes, m.token, {})
    case Installing(_, m, _, _) => Unknown(probes, m.token, {})
    case Installed(_, m) => Unknown(probes, m.token, {})
    case Probing(_, m, id) => Unknown(probes, m.token, {id})
    case Verified(_, m) => Unknown(probes, m.token, {})
    case _ => true
  }

  ghost predicate TokenInv(s: State) { s.retired <= s.tokens && Private(s.phase, s.probes) }

  ghost predicate Inv(s: State) { MarkerInv(s) && PhaseInv(s) && ProbeInv(s) && TokenInv(s) }

  // No process runs. A marker may already be there, left by an interrupted
  // upgrade of this or an earlier release.
  ghost predicate Init(s: State) {
    && s.phase.Idle? && !s.serving && s.probes == map[] && s.locks == map[] && s.retired == {}
    && MarkerInv(s)
  }

  lemma InitInv(s: State)
    requires Init(s)
    ensures Inv(s)
  {}

  lemma RestoreListed(m: Marker, n: Name) returns (k: nat)
    requires Restores(m, n)
    ensures k < |RestoreList(m)| && RestoreList(m)[k] == n
  {
    if {
      case n.Binary? => k := 0;
      case n.Launcher? => k := 1;
      case n.Web? => k := 2;
      case n.Lib? => k := 3;
      case n.Version? => k := 4;
      case n.ReleaseManifest? => k := 5;
      case n.FileManifest? => k := 6;
      case n.Config? => k := 7;
      case n.Data? => k := 8;
      case n.Uploads? => k := 9;
      case n.Logs? => k := 10;
      case n.Runtime? => k := 11;
    }
  }

  lemma RestoreListDistinct(m: Marker, j: nat, k: nat)
    requires j < k < |RestoreList(m)|
    ensures RestoreList(m)[j] != RestoreList(m)[k] && Restores(m, RestoreList(m)[k])
  {}

  // All program entries in place make the complete package.
  lemma ProgramComplete(files: Files, pkg: Files)
    requires pkg == ProgramOf(pkg)
    requires forall j :: 0 <= j < |PROGRAM| ==> Get(files, PROGRAM[j]) == Get(pkg, PROGRAM[j])
    ensures ProgramOf(files) == pkg
  {
    assert Get(files, PROGRAM[0]) == Get(pkg, PROGRAM[0]);
    assert Get(files, PROGRAM[1]) == Get(pkg, PROGRAM[1]);
    assert Get(files, PROGRAM[2]) == Get(pkg, PROGRAM[2]);
    assert Get(files, PROGRAM[3]) == Get(pkg, PROGRAM[3]);
    assert Get(files, PROGRAM[4]) == Get(pkg, PROGRAM[4]);
    assert Get(files, PROGRAM[5]) == Get(pkg, PROGRAM[5]);
    assert Get(files, PROGRAM[6]) == Get(pkg, PROGRAM[6]);
    forall n: Name
      ensures Get(ProgramOf(files), n) == Get(pkg, n)
    {
      assert n in pkg ==> n in ProgramOf(pkg);
    }
    forall n | n in ProgramOf(files) ensures n in pkg && ProgramOf(files)[n] == pkg[n] {
      assert Get(ProgramOf(files), n) == Get(pkg, n);
    }
    forall n | n in pkg ensures n in ProgramOf(files) {
      assert Get(ProgramOf(files), n) == Get(pkg, n);
    }
  }

  // Entries that agree wherever a restore looks make the same program.
  lemma ProgramFromRestore(m: Marker, a: Files, b: Files)
    requires SameOn(m, a, b)
    ensures ProgramOf(a) == ProgramOf(b)
  {
    forall n | n in ProgramOf(a) ensures n in ProgramOf(b) && ProgramOf(a)[n] == ProgramOf(b)[n] {
      assert Restores(m, n) && Get(a, n) == Get(b, n);
    }
    forall n | n in ProgramOf(b) ensures n in ProgramOf(a) {
      assert Restores(m, n) && Get(a, n) == Get(b, n);
    }
  }

  lemma RestoreComplete(m: Marker, files: Files)
    requires forall j :: 0 <= j < |RestoreList(m)| ==>
             Get(files, RestoreList(m)[j]) == Get(m.digest.of, RestoreList(m)[j])
    ensures SameOn(m, files, m.digest.of)
  {
    forall n | Restores(m, n) ensures Get(files, n) == Get(m.digest.of, n) {
      var k := RestoreListed(m, n);
      assert Get(files, RestoreList(m)[k]) == Get(m.digest.of, RestoreList(m)[k]);
    }
  }

  lemma PrepareKeepsMarker(s: State, a: Action)
    requires MarkerInv(s) && PhaseInv(s) && TokenInv(s)
    ensures MarkerInv(Prepare(s, a))
  {
    if s.phase.Sealed? && a.WriteMarker? { ProgramFromRestore(s.phase.m, s.phase.m.digest.of, s.files); }
  }

  lemma CopyingKeepsPhase(s: State, a: Action)
    requires MarkerInv(s) && PhaseInv(s) && TokenInv(s) && s.phase.Copying?
    ensures PhaseInv(Prepare(s, a))
  {}

  lemma SealedKeepsPhase(s: State, a: Action)
    requires MarkerInv(s) && PhaseInv(s) && TokenInv(s) && s.phase.Sealed?
    ensures PhaseInv(Prepare(s, a))
  {}

  lemma BeginningKeepsPhase(s: State, a: Action)
    requires MarkerInv(s) && PhaseInv(s) && (s.phase.Idle? || s.phase.Checking?)
    ensures PhaseInv(Prepare(s, a))
  {}

  lemma PrepareKeepsPhase(s: State, a: Action)
    requires MarkerInv(s) && PhaseInv(s) && TokenInv(s)
    ensures PhaseInv(Prepare(s, a))
  {
    match s.phase
    case Idle => BeginningKeepsPhase(s, a);
    case Checking => BeginningKeepsPhase(s, a);
    case Copying(_, _, _) => CopyingKeepsPhase(s, a);
    case Sealed(_, _) => SealedKeepsPhase(s, a);
    case _ =>
  }

  lemma FreshToken(probes: map<nat, Probe>, tokens: set<nat>, token: nat)
    requires Drawn(probes, tokens) && token !in tokens
    ensures Unknown(probes, token, {}) && Drawn(probes, tokens + {token})
  {}

  lemma PrepareKeepsProbes(s: State, a: Action)
    requires MarkerInv(s) && PhaseInv(s) && ProbeInv(s) && TokenInv(s)
    ensures ProbeInv(Prepare(s, a)) && TokenInv(Prepare(s, a))
  {
    if s.phase.Sealed? {
      WriteKeepsProbes(s, a);
    } else if s.phase.Copying? {
      CopyKeepsProbes(s, a);
    }
  }

  lemma CopyKeepsProbes(s: State, a: Action)
    requires ProbeInv(s) && TokenInv(s) && s.phase.Copying?
    ensures ProbeInv(Copy(s, a)) && TokenInv(Copy(s, a))
  {
    if a.Seal? && a.token !in s.tokens { FreshToken(s.probes, s.tokens, a.token); }
  }

  lemma WriteKeepsProbes(s: State, a: Action)
    requires PhaseInv(s) && ProbeInv(s) && TokenInv(s) && s.phase.Sealed?
    ensures ProbeInv(Prepare(s, a)) && TokenInv(Prepare(s, a))
  {}

  lemma InstallingStep(pkg: Files, k: nat, before: Files, t: Option<Content>)
    requires k < |PROGRAM|
    requires forall j :: 0 <= j < k ==> Get(before, PROGRAM[j]) == Get(pkg, PROGRAM[j])
    ensures forall j :: 0 <= j < k ==> Get(Put(before, PROGRAM[k], t), PROGRAM[j]) == Get(pkg, PROGRAM[j])
    ensures Get(Put(before, PROGRAM[k], t), PROGRAM[k]) == t
  {
    forall j | 0 <= j < k ensures PROGRAM[j] != PROGRAM[k] {}
  }

  lemma ReplaceKeepsMarker(s: State, a: Action)
    requires MarkerInv(s) && PhaseInv(s) && s.phase.Installing?
    ensures MarkerInv(Replace(s, a))
  {}

  lemma PlaceKeepsPhase(s: State, a: Action)
    requires MarkerInv(s) && PhaseInv(s) && s.phase.Installing? && a.Place?
    ensures PhaseInv(Replace(s, a))
  {
    InstallingStep(s.phase.pkg, s.phase.k, s.files, Get(s.phase.pkg, PROGRAM[s.phase.k]));
    if Replace(s, a).phase.Installed? { ProgramComplete(Replace(s, a).files, s.phase.pkg); }
  }

  lemma ReplaceKeepsPhase(s: State, a: Action)
    requires MarkerInv(s) && PhaseInv(s) && s.phase.Installing?
    ensures PhaseInv(Replace(s, a))
  {
    if a.Place? {
      PlaceKeepsPhase(s, a);
    } else if a.Clear? {
      InstallingStep(s.phase.pkg, s.phase.k, s.files, None);
    } else if a.Damage? {
      InstallingStep(s.phase.pkg, s.phase.k, s.files, a.left);
    }
  }

  lemma ReplaceKeepsProbes(s: State, a: Action)
    requires Inv(s) && s.phase.Installing?
    ensures ProbeInv(Replace(s, a)) && TokenInv(Replace(s, a))
  {}

  lemma ConfirmKeepsFiles(s: State, a: Action)
    requires MarkerInv(s) && PhaseInv(s)
    ensures MarkerInv(Confirm(s, a)) && PhaseInv(Confirm(s, a))
  {
    ConfirmKeepsMarker(s, a);
  }

  lemma ConfirmKeepsMarker(s: State, a: Action)
    requires MarkerInv(s) && PhaseInv(s)
    ensures MarkerInv(Confirm(s, a))
  {}

  lemma SpawnKeepsProbes(s: State, a: Action)
    requires MarkerInv(s) && PhaseInv(s) && ProbeInv(s) && TokenInv(s) && s.phase.Installed?
    ensures ProbeInv(Confirm(s, a)) && TokenInv(Confirm(s, a))
  {}

  lemma CommitKeepsProbes(s: State, a: Action)
    requires MarkerInv(s) && PhaseInv(s) && ProbeInv(s) && TokenInv(s) && s.phase.Verified?
    ensures ProbeInv(Confirm(s, a)) && TokenInv(Confirm(s, a))
  {}

  lemma ConfirmKeepsProbes(s: State, a: Action)
    requires MarkerInv(s) && PhaseInv(s) && ProbeInv(s) && TokenInv(s)
    ensures ProbeInv(Confirm(s, a)) && TokenInv(Confirm(s, a))
  {
    if s.phase.Installed? {
      SpawnKeepsProbes(s, a);
    } else if s.phase.Verified? {
      CommitKeepsProbes(s, a);
    }
  }

  lemma RecoverKeepsMarker(s: State, a: Action)
    requires MarkerInv(s) && PhaseInv(s)
    ensures MarkerInv(Recover(s, a))
  {
    if s.phase.Finishing? {
      ProgramFromRestore(s.phase.m, s.phase.m.digest.of, s.before);
      ProgramFromRestore(s.phase.m, s.phase.m.digest.of, s.files);
    }
  }

  // The entry being rewritten is none of those already restored.
  lemma RestoringStep(m: Marker, k: nat, before: Files, t: Option<Content>)
    requires k < |RestoreList(m)|
    requires forall j :: 0 <= j < k ==> Get(before, RestoreList(m)[j]) == Get(m.digest.of, RestoreList(m)[j])
    ensures forall j :: 0 <= j < k ==>
              Get(Put(before, RestoreList(m)[k], t), RestoreList(m)[j]) == Get(m.digest.of, RestoreList(m)[j])
    ensures Get(Put(before, RestoreList(m)[k], t), RestoreList(m)[k]) == t
  {
    forall j | 0 <= j < k ensures RestoreList(m)[j] != RestoreList(m)[k] { RestoreListDistinct(m, j, k); }
  }

  lemma RestoreEntryKeepsMarker(s: State, a: Action)
    requires MarkerInv(s) && PhaseInv(s) && s.phase.Restoring?
    ensures MarkerInv(RestoreEntry(s, a))
  {}

  lemma RestoreEntryKeepsPhase(s: State, a: Action)
    requires MarkerInv(s) && PhaseInv(s) && s.phase.Restoring?
    ensures PhaseInv(RestoreEntry(s, a))
  {
    var m, k := s.phase.m, s.phase.k;
    if a.Place? {
      RestoringStep(m, k, s.files, Get(m.digest.of, RestoreList(m)[k]));
      if k + 1 == |RestoreList(m)| && s.phase.cleared { RestoreComplete(m, RestoreEntry(s, a).files); }
    } else if a.Clear? {
      RestoringStep(m, k, s.files, None);
    } else if a.Damage? {
      RestoringStep(m, k, s.files, a.left);
    }
  }

  lemma RestoreEntryKeepsProbes(s: State, a: Action)
    requires Inv(s) && s.phase.Restoring?
    ensures ProbeInv(RestoreEntry(s, a)) && TokenInv(RestoreEntry(s, a))
  {}

  lemma RecoverKeepsPhase(s: State, a: Action)
    requires MarkerInv(s) && PhaseInv(s) && MarkerInv(Recover(s, a)) && !s.phase.Restoring?
    ensures PhaseInv(Recover(s, a))
  {}

  lemma UpdaterKeepsOwners(probes: map<nat, Probe>, locks: map<nat, Holder>, b: nat)
    requires Owners(probes, locks) && b !in locks
    ensures Owners(probes, locks[b := ByUpdater])
  {}

  lemma ReleaseKeepsOwners(probes: map<nat, Probe>, locks: map<nat, Holder>)
    requires Owners(probes, locks)
    ensures Owners(probes, ReleaseUpdater(locks))
  {}

  // While the updater holds the marker's snapshot lock no probe is past its second check.
  lemma NoneActive(probes: map<nat, Probe>, locks: map<nat, Holder>, m: Marker)
    requires Owners(probes, locks) && Current(probes, Some(m)) && m.backup in locks && locks[m.backup] == ByUpdater
    ensures Current(probes, None)
  {}

  lemma FinishKeepsProbes(s: State, a: Action)
    requires Inv(s) && s.phase.Finishing?
    ensures ProbeInv(Recover(s, a)) && TokenInv(Recover(s, a))
  {
    ReleaseKeepsOwners(s.probes, s.locks);
    NoneActive(s.probes, s.locks, s.phase.m);
  }

  lemma LockKeepsProbes(s: State, a: Action)
    requires Inv(s) && s.phase.Recovering?
    ensures ProbeInv(Recover(s, a)) && TokenInv(Recover(s, a))
  {
    if s.phase.m.backup !in s.locks { UpdaterKeepsOwners(s.probes, s.locks, s.phase.m.backup); }
  }

  lemma RecoverKeepsProbes(s: State, a: Action)
    requires Inv(s)
    ensures ProbeInv(Recover(s, a)) && TokenInv(Recover(s, a))
  {
    if s.phase.Recovering? {
      LockKeepsProbes(s, a);
    } else if s.phase.Restoring? {
      RestoreEntryKeepsProbes(s, a);
    } else if s.phase.Finishing? {
      FinishKeepsProbes(s, a);
    }
  }

  lemma ReadMarkerKeepsFiles(s: State, id: nat)
    requires Inv(s)
    ensures MarkerInv(ReadMarker(s, id)) && PhaseInv(ReadMarker(s, id))
  {}

  // A probe that holds no lock before or after, and learns no other token, disturbs nothing.
  lemma HarmlessStep(probes: map<nat, Probe>, locks: map<nat, Holder>, marker: Option<Marker>, tokens: set<nat>,
                     phase: Phase, id: nat, p: Probe)
    requires Owners(probes, locks) && Current(probes, marker) && Drawn(probes, tokens) && Private(phase, probes)
    requires id in probes && !probes[id].Locked? && !probes[id].Active? && !p.Locked? && !p.Active?
    requires TokenOf(p).None? || TokenOf(p) == TokenOf(probes[id])
    ensures var after := probes[id := p];
            Owners(after, locks) && Current(after, marker) && Drawn(after, tokens) && Private(phase, after)
  {}

  lemma ReadMarkerKeepsProbes(s: State, id: nat)
    requires ProbeInv(s) && TokenInv(s)
    ensures ProbeInv(ReadMarker(s, id)) && TokenInv(ReadMarker(s, id))
  {
    if id in s.probes && s.probes[id].Spawned? {
      HarmlessStep(s.probes, s.locks, s.marker, s.tokens, s.phase, id, ReadMarker(s, id).probes[id]);
    }
  }

  lemma TakeLockKeepsFiles(s: State, id: nat)
    requires Inv(s)
    ensures MarkerInv(TakeLock(s, id)) && PhaseInv(TakeLock(s, id))
  {}

  lemma AcquireKeepsOwners(probes: map<nat, Probe>, locks: map<nat, Holder>, id: nat, m: Marker)
    requires Owners(probes, locks) && id in probes && probes[id].Read? && m.backup !in locks
    ensures Owners(probes[id := Locked(m)], locks[m.backup := ByProbe(id)])
  {}

  lemma RefuseKeepsOwners(probes: map<nat, Probe>, locks: map<nat, Holder>, id: nat)
    requires Owners(probes, locks) && id in probes && probes[id].Read?
    ensures Owners(probes[id := Exited(false)], locks)
  {}

  lemma TakeLockKeepsOwners(s: State, id: nat)
    requires Owners(s.probes, s.locks)
    ensures Owners(TakeLock(s, id).probes, TakeLock(s, id).locks)
  {
    if id in s.probes && s.probes[id].Read? {
      if s.probes[id].m.backup in s.locks {
        RefuseKeepsOwners(s.probes, s.locks, id);
      } else {
        AcquireKeepsOwners(s.probes, s.locks, id, s.probes[id].m);
      }
    }
  }

  // A probe that stays outside its second check and learns no other token disturbs no marker.
  lemma QuietStep(probes: map<nat, Probe>, marker: Option<Marker>, tokens: set<nat>, phase: Phase, id: nat, p: Probe)
    requires Current(probes, marker) && Drawn(probes, tokens) && Private(phase, probes)
    requires id in probes && !p.Active? && (TokenOf(p).None? || TokenOf(p) == TokenOf(probes[id]))
    ensures var after := probes[id := p]; Current(after, marker) && Drawn(after, tokens) && Private(phase, after)
  {}

  lemma TakeLockKeepsTokens(s: State, id: nat)
    requires Current(s.probes, s.marker) && Drawn(s.probes, s.tokens) && TokenInv(s)
    ensures Current(TakeLock(s, id).probes, s.marker) && Drawn(TakeLock(s, id).probes, s.tokens)
            && TokenInv(TakeLock(s, id))
  {
    if id in s.probes && s.probes[id].Read? {
      QuietStep(s.probes, s.marker, s.tokens, s.phase, id, TakeLock(s, id).probes[id]);
    }
  }

  lemma LeaveKeepsInv(s: State, id: nat, ready: bool)
    requires Inv(s) && id in s.probes
    ensures Inv(Leave(s, id, ready))
  {}

  lemma ReadAgainKeepsInv(s: State, id: nat)
    requires Inv(s)
    ensures Inv(ReadAgain(s, id))
  {
    if id in s.probes { LeaveKeepsInv(s, id, false); }
  }

  lemma ServeKeepsMarker(s: State, id: nat, n: Name, t: Option<Content>)
    requires MarkerInv(s) && Current(s.probes, s.marker)
    ensures MarkerInv(Serve(s, id, n, t))
  {}

  // The only process that still steps while the updater works is a probe whose marker is present, and then
  // the updater holds the files of its package only.
  lemma ServeKeepsPhase(s: State, id: nat, n: Name, t: Option<Content>)
    requires Inv(s)
    ensures PhaseInv(Serve(s, id, n, t))
  {
    if id in s.probes && s.probes[id].Active? {
      assert s.marker == Some(s.probes[id].m);
      assert s.locks[s.probes[id].m.backup] == ByProbe(id);
      if IsData(n) || n.Tmp? { DataKeepsProgress(s.phase, s.marker, s.files, s.snapshots, n, t); }
    }
  }

  lemma DataKeepsProgress(p: Phase, marker: Option<Marker>, files: Files, snapshots: map<nat, Files>, n: Name,
                          t: Option<Content>)
    requires Progress(p, marker, files, snapshots) && marker.Some? && !HoldsSnapshot(p) && !IsProgram(n)
    ensures Progress(p, marker, Put(files, n, t), snapshots)
  {}

  lemma ServeKeepsProbes(s: State, id: nat, n: Name, t: Option<Content>)
    requires ProbeInv(s) && TokenInv(s)
    ensures ProbeInv(Serve(s, id, n, t)) && TokenInv(Serve(s, id, n, t))
  {}

  lemma ServeKeepsInv(s: State, id: nat, n: Name, t: Option<Content>)
    requires Inv(s)
    ensures Inv(Serve(s, id, n, t))
  {
    ServeKeepsMarker(s, id, n, t);
    ServeKeepsPhase(s, id, n, t);
    ServeKeepsProbes(s, id, n, t);
  }

  lemma WorldKeepsMarker(s: State, a: Action)
    requires MarkerInv(s) && PhaseInv(s)
    ensures MarkerInv(World(s, a))
  {}

  lemma TamperKeepsPhase(s: State, a: Action)
    requires MarkerInv(s) && PhaseInv(s) && MarkerInv(World(s, a)) && a.Tamper?
    ensures PhaseInv(World(s, a))
  {}

  lemma LossKeepsPhase(s: State, a: Action)
    requires MarkerInv(s) && PhaseInv(s) && a.LoseRuntime?
    ensures PhaseInv(World(s, a))
  {}

  lemma WorldKeepsPhase(s: State, a: Action)
    requires MarkerInv(s) && PhaseInv(s) && MarkerInv(World(s, a))
    ensures PhaseInv(World(s, a))
  {
    if a.Tamper? { TamperKeepsPhase(s, a); }
    if a.LoseRuntime? { LossKeepsPhase(s, a); }
  }

  lemma WorldKeepsProbes(s: State, a: Action)
    requires ProbeInv(s) && TokenInv(s)
    ensures ProbeInv(World(s, a)) && TokenInv(World(s, a))
  {}

  lemma ProbesKeepInv(s: State, a: Action)
    requires Inv(s)
    ensures Inv(Probes(s, a))
  {
    match a
    case ProbeRead(id) => ReadMarkerKeepsFiles(s, id); ReadMarkerKeepsProbes(s, id);
    case ProbeLock(id) => TakeLockKeepsFiles(s, id); TakeLockKeepsOwners(s, id); TakeLockKeepsTokens(s, id);
    case ProbeRecheck(id) => ReadAgainKeepsInv(s, id);
    case ProbeWrite(id, n, t) => ServeKeepsInv(s, id, n, t);
    case ProbeExit(id, ready) => if id in s.probes { LeaveKeepsInv(s, id, ready); }
    case _ =>
  }

  lemma RecoverKeepsInv(s: State, a: Action)
    requires Inv(s) && (s.phase.Recovering? || HoldsSnapshot(s.phase))
    ensures Inv(Recover(s, a))
  {
    RecoverKeepsProbes(s, a);
    if s.phase.Restoring? {
      RestoreEntryKeepsMarker(s, a);
      RestoreEntryKeepsPhase(s, a);
    } else {
      RecoverKeepsMarker(s, a);
      RecoverKeepsPhase(s, a);
    }
  }

  lemma WorldKeepsInv(s: State, a: Action)
    requires Inv(s)
    ensures Inv(World(s, a))
  {
    WorldKeepsMarker(s, a);
    WorldKeepsPhase(s, a);
    WorldKeepsProbes(s, a);
  }

  lemma ReplaceKeepsInv(s: State, a: Action)
    requires Inv(s) && s.phase.Installing?
    ensures Inv(Replace(s, a))
  {
    ReplaceKeepsMarker(s, a);
    ReplaceKeepsPhase(s, a);
    ReplaceKeepsProbes(s, a);
  }

  lemma ConfirmKeepsInv(s: State, a: Action)
    requires Inv(s) && (s.phase.Installed? || s.phase.Probing? || s.phase.Verified?)
    ensures Inv(Confirm(s, a))
  {
    ConfirmKeepsFiles(s, a);
    ConfirmKeepsProbes(s, a);
  }

  lemma PrepareKeepsInv(s: State, a: Action)
    requires Inv(s)
    ensures Inv(Prepare(s, a))
  {
    PrepareKeepsMarker(s, a);
    PrepareKeepsPhase(s, a);
    PrepareKeepsProbes(s, a);
  }

  // Every step of every process keeps the invariant.
  lemma StepKeepsInv(s: State, a: Action)
    requires Inv(s)
    ensures Inv(Apply(s, a))
  {
    if a.Die? || a.ServeStart? || a.ServeWrite? || a.ServeStop? || a.Tamper? || a.LoseRuntime? {
      WorldKeepsInv(s, a);
    } else if a.ProbeRead? || a.ProbeLock? || a.ProbeRecheck? || a.ProbeWrite? || a.ProbeExit? {
      ProbesKeepInv(s, a);
    } else if s.phase.Recovering? || HoldsSnapshot(s.phase) {
      RecoverKeepsInv(s, a);
    } else if s.phase.Installing? {
      ReplaceKeepsInv(s, a);
    } else if s.phase.Installed? || s.phase.Probing? || s.phase.Verified? {
      ConfirmKeepsInv(s, a);
    } else {
      PrepareKeepsInv(s, a);
    }
  }

  lemma {:induction false} RunKeepsInv(s: State, actions: seq<Action>)
    requires Inv(s)
    ensures Inv(Run(s, actions))
    decreases |actions|
  {
    if actions != [] {
      StepKeepsInv(s, actions[0]);
      RunKeepsInv(Apply(s, actions[0]), actions[1..]);
    }
  }
}
