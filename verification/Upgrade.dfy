// The portable upgrade of portable_upgrade.go as a transition system. An updater,
// any number of probes (possibly orphaned by a killed updater) and the ordinary
// service share one installation directory. Every file operation that is not
// atomic is split into steps, and every process may die between any two steps.
module Upgrade {
  import opened Wrappers

  // Top-level entries of the installation directory. The marker, the backups and
  // the locks are separate components of the state.
  datatype Name =
    | Binary | Launcher | Web | Lib | Version | ReleaseManifest | FileManifest
    | Config | Data | Uploads | Logs
    | Runtime | Tmp | Unrelated(id: nat)

  // The identity of one complete file or directory tree.
  type Content = nat

  type Files = map<Name, Content>

  const PROGRAM: seq<Name> := [Binary, Launcher, Web, Lib, Version, ReleaseManifest, FileManifest]
  const DATA: seq<Name> := [Config, Data, Uploads, Logs]

  predicate IsProgram(n: Name) {
    n.Binary? || n.Launcher? || n.Web? || n.Lib? || n.Version? || n.ReleaseManifest? || n.FileManifest?
  }

  predicate IsData(n: Name) { n.Config? || n.Data? || n.Uploads? || n.Logs? }

  // A collision-free checksum of a snapshot: it determines what was hashed.
  datatype Digest = Digest(of: Files)

  datatype Marker = Marker(backup: nat, token: nat, digest: Digest, keepRuntime: bool)

  datatype Probe =
    | Spawned(token: nat)      // token read from standard input
    | Read(m: Marker)          // saw this marker
    | Locked(m: Marker)        // holds the snapshot lock, marker not yet read again
    | Active(m: Marker)        // runs the installed server
    | Exited(ready: bool)

  datatype Phase =
    | Idle
    | Checking
    | Copying(pkg: Files, backup: nat, todo: set<Name>)
    | Sealed(pkg: Files, m: Marker)
    | Installing(pkg: Files, m: Marker, k: nat, cleared: bool)
    | Installed(pkg: Files, m: Marker)
    | Probing(pkg: Files, m: Marker, probe: nat)
    | Verified(pkg: Files, m: Marker)
    | Recovering(m: Marker)
    | SnapshotLocked(m: Marker)
    | Restoring(m: Marker, k: nat, cleared: bool)
    | RuntimeStep(m: Marker)
    | Finishing(m: Marker)

  datatype Holder = ByUpdater | ByProbe(id: nat)

  // The last five components record history and steer nothing but freshness:
  // tokens drawn so far, tokens whose marker was removed, backups changed from
  // outside, the committed program, and the files when the marker was written.
  datatype State = State(
    files: Files,
    marker: Option<Marker>,
    snapshots: map<nat, Files>,
    locks: map<nat, Holder>,
    phase: Phase,
    serving: bool,
    probes: map<nat, Probe>,
    tokens: set<nat>,
    retired: set<nat>,
    tampered: set<nat>,
    current: Files,
    before: Files)

  datatype Action =
    | StartUpdater
    | BeginBackup(pkg: Files, backup: nat, bundled: bool)
    | RecoverFirst
    | CopyEntry(n: Name)
    | Seal(token: nat)
    | WriteMarker
    | Damage(left: Option<Content>)    // a removal or copy stopped part-way
    | Clear                         // the entry is removed
    | Place                         // the entry is installed or copied back
    | SpawnProbe(id: nat)
    | AwaitProbe
    | Commit
    | GiveUp
    | LockSnapshot
    | CheckSnapshot
    | RestoreRuntime
    | Finish
    | Die                           // the updater exits with an error or is killed
    | ProbeRead(id: nat) | ProbeLock(id: nat) | ProbeRecheck(id: nat)
    | ProbeWrite(id: nat, n: Name, t: Option<Content>)
    | ProbeExit(id: nat, ready: bool)
    | ServeStart | ServeWrite(n: Name, t: Option<Content>) | ServeStop
    | Tamper(backup: nat, n: Name, t: Option<Content>)
    | LoseRuntime

  function Get(f: Files, n: Name): Option<Content> { if n in f then Some(f[n]) else None }

  function Put(f: Files, n: Name, t: Option<Content>): Files {
    if t.Some? then f[n := t.value] else f - {n}
  }

  predicate HasProgram(f: Files) {
    Binary in f && Launcher in f && Web in f && Lib in f && Version in f && ReleaseManifest in f && FileManifest in f
  }

  function ProgramOf(f: Files): Files { map n | n in f && IsProgram(n) :: f[n] }

  // What a restore rewrites, in order.
  function RestoreList(m: Marker): seq<Name> { PROGRAM + DATA + (if m.keepRuntime then [] else [Runtime]) }

  predicate Restores(m: Marker, n: Name) { IsProgram(n) || IsData(n) || (!m.keepRuntime && n.Runtime?) }

  // The process that holds the target lock in this phase works on this marker's snapshot.
  predicate HoldsSnapshot(p: Phase) {
    p.SnapshotLocked? || p.Restoring? || p.RuntimeStep? || p.Finishing?
  }

  // The updater is writing or reading this backup right now.
  predicate Busy(p: Phase, backup: nat) {
    (p.Copying? && p.backup == backup) || (HoldsSnapshot(p) && !p.SnapshotLocked? && p.m.backup == backup)
  }

  function ReleaseUpdater(locks: map<nat, Holder>): map<nat, Holder> {
    map b | b in locks && locks[b] != ByUpdater :: locks[b]
  }

  function ReleaseProbe(locks: map<nat, Holder>, id: nat): map<nat, Holder> {
    map b | b in locks && locks[b] != ByProbe(id) :: locks[b]
  }

  // ---------------------------------------------------------------------------
  // Steps of the updater
  // ---------------------------------------------------------------------------

  // A runtime is backed up only when an earlier release bundled it.
  function ToCopy(files: Files, bundled: bool): set<Name> {
    files.Keys - {Tmp} - (if bundled then {} else {Runtime})
  }

  // Taking the target lock, and deciding whether there is something to recover first.
  function Begin(s: State, a: Action): (t: State)
    requires s.phase.Idle? || s.phase.Checking?
    ensures t.files == s.files && t.retired == s.retired && t.tampered == s.tampered && t.marker == s.marker
            && t.before == s.before
  {
    if s.phase.Idle? then
      if a.StartUpdater? && !s.serving then s.(phase := Checking) else s
    else if a.RecoverFirst? && s.marker.Some? then s.(phase := Recovering(s.marker.value))
    // The staged package was verified against its own manifest.
    else if a.BeginBackup? && s.marker.None? && a.backup !in s.snapshots && HasProgram(a.pkg)
      && a.pkg == ProgramOf(a.pkg)
    then s.(phase := Copying(a.pkg, a.backup, ToCopy(s.files, a.bundled)),
            snapshots := s.snapshots[a.backup := map[]])
    else s
  }

  // Filling the cold backup, entry by entry, and sealing it.
  function Copy(s: State, a: Action): (t: State)
    requires s.phase.Copying?
    ensures t.files == s.files && t.retired == s.retired && t.tampered == s.tampered && t.marker == s.marker
            && t.before == s.before
  {
    var Copying(pkg, backup, todo) := s.phase;
    if backup !in s.snapshots then s
    else if a.CopyEntry? && a.n in todo && a.n in s.files
    then s.(phase := Copying(pkg, backup, todo - {a.n}),
            snapshots := s.snapshots[backup := s.snapshots[backup][a.n := s.files[a.n]]])
    else if a.Seal? && todo == {} && a.token !in s.tokens && HasProgram(s.snapshots[backup])
      && Config in s.snapshots[backup]
    then s.(phase := Sealed(pkg, Marker(backup, a.token, Digest(s.snapshots[backup]), true)),
            tokens := s.tokens + {a.token})
    else s
  }

  // From taking the target lock to writing the marker.
  function Prepare(s: State, a: Action): (t: State)
    ensures t.files == s.files
  {
    if s.phase.Idle? || s.phase.Checking? then Begin(s, a)
    else if s.phase.Copying? then Copy(s, a)
    else if s.phase.Sealed? && a.WriteMarker?
    then s.(phase := Installing(s.phase.pkg, s.phase.m, 0, false), marker := Some(s.phase.m), before := s.files)
    else s
  }

  // Replacing the program entry by entry.
  function Replace(s: State, a: Action): (t: State)
    requires s.phase.Installing?
    ensures t.snapshots == s.snapshots
  {
    var Installing(pkg, m, k, cleared) := s.phase;
    if a.GiveUp? then s.(phase := Recovering(m))
    else if k >= |PROGRAM| then s
    else if a.Damage? && !cleared then s.(files := Put(s.files, PROGRAM[k], a.left))
    else if a.Clear? && !cleared then s.(files := Put(s.files, PROGRAM[k], None), phase := Installing(pkg, m, k, true))
    else if a.Place? && cleared
    then s.(files := Put(s.files, PROGRAM[k], Get(pkg, PROGRAM[k])),
            phase := if k + 1 == |PROGRAM| then Installed(pkg, m) else Installing(pkg, m, k + 1, false))
    else s
  }

  // The probe of the installed program, and the commit.
  function Confirm(s: State, a: Action): (t: State)
    ensures t.snapshots == s.snapshots && t.files == s.files
  {
    match s.phase
    case Installed(pkg, m) =>
      if a.GiveUp? then s.(phase := Recovering(m))
      else if a.SpawnProbe? && a.id !in s.probes
      then s.(phase := Probing(pkg, m, a.id), probes := s.probes[a.id := Spawned(m.token)])
      else s
    case Probing(pkg, m, id) =>
      // The command has been waited for, so its process is gone either way.
      if id !in s.probes || !s.probes[id].Exited? then s
      else if a.AwaitProbe? && s.probes[id].ready then s.(phase := Verified(pkg, m))
      else if a.GiveUp? then s.(phase := Recovering(m))
      else s
    case Verified(pkg, m) =>
      if a.Commit? then s.(phase := Idle, marker := None, retired := s.retired + {m.token}, current := pkg) else s
    case _ => s
  }

  // Rewriting one entry from the snapshot: removed first, then copied back if it was there.
  function RestoreEntry(s: State, a: Action): (t: State)
    requires s.phase.Restoring?
    ensures t.snapshots == s.snapshots
  {
    var Restoring(m, k, cleared) := s.phase;
    if k >= |RestoreList(m)| || m.backup !in s.snapshots then s
    else if a.Damage? then s.(files := Put(s.files, RestoreList(m)[k], a.left), phase := Restoring(m, k, false))
    else if a.Clear? then s.(files := Put(s.files, RestoreList(m)[k], None), phase := Restoring(m, k, true))
    else if a.Place? && cleared
    then s.(files := Put(s.files, RestoreList(m)[k], Get(s.snapshots[m.backup], RestoreList(m)[k])),
            phase := if k + 1 == |RestoreList(m)| then RuntimeStep(m) else Restoring(m, k + 1, false))
    else s
  }

  // Restoring the cold snapshot.
  function Recover(s: State, a: Action): (t: State)
    ensures t.snapshots == s.snapshots
  {
    match s.phase
    case Recovering(m) =>
      if a.LockSnapshot? && m.backup !in s.locks
      then s.(phase := SnapshotLocked(m), locks := s.locks[m.backup := ByUpdater])
      else s
    case SnapshotLocked(m) =>
      if a.CheckSnapshot? && m.backup in s.snapshots && Digest(s.snapshots[m.backup]) == m.digest
      then s.(phase := Restoring(m, 0, false))
      else s
    case Restoring(_, _, _) => RestoreEntry(s, a)
    case RuntimeStep(m) =>
      // A staged copy is renamed into place, and only when nothing is there.
      if a.RestoreRuntime?
      then s.(phase := Finishing(m),
              files := if m.keepRuntime && Runtime !in s.files && m.backup in s.snapshots
                       then Put(s.files, Runtime, Get(s.snapshots[m.backup], Runtime)) else s.files)
      else s
    case Finishing(m) =>
      if a.Finish? then s.(phase := Idle, marker := None, retired := s.retired + {m.token},
                        locks := ReleaseUpdater(s.locks))
      else s
    case _ => s
  }

  // ---------------------------------------------------------------------------
  // Steps of probes, of the service and of the world outside
  // ---------------------------------------------------------------------------

  // Nothing but files, probes and locks differs.
  ghost predicate SameHistory(s: State, t: State) {
    && t.retired == s.retired && t.tampered == s.tampered && t.marker == s.marker && t.before == s.before
    && t.current == s.current && t.phase == s.phase && t.snapshots == s.snapshots
  }

  function ReadMarker(s: State, id: nat): (t: State)
    ensures SameHistory(s, t)
  {
    if id !in s.probes || !s.probes[id].Spawned? then s
    else if s.marker.Some? && s.marker.value.token == s.probes[id].token
    then s.(probes := s.probes[id := Read(s.marker.value)])
    else s.(probes := s.probes[id := Exited(false)])
  }

  function TakeLock(s: State, id: nat): (t: State)
    ensures SameHistory(s, t)
  {
    if id !in s.probes || !s.probes[id].Read? then s
    else if s.probes[id].m.backup in s.locks then s.(probes := s.probes[id := Exited(false)])
    else s.(probes := s.probes[id := Locked(s.probes[id].m)], locks := s.locks[s.probes[id].m.backup := ByProbe(id)])
  }

  function Leave(s: State, id: nat, ready: bool): (t: State)
    requires id in s.probes
    ensures SameHistory(s, t)
  {
    s.(probes := s.probes[id := Exited(ready)], locks := ReleaseProbe(s.locks, id))
  }

  function ReadAgain(s: State, id: nat): (t: State)
    ensures SameHistory(s, t)
  {
    if id !in s.probes || !s.probes[id].Locked? then s
    else if s.marker == Some(s.probes[id].m) then s.(probes := s.probes[id := Active(s.probes[id].m)])
    else Leave(s, id, false)
  }

  // The installed server rewrites data entries; it never checks the marker again.
  function Serve(s: State, id: nat, n: Name, t: Option<Content>): (u: State)
    ensures SameHistory(s, u)
  {
    if id in s.probes && s.probes[id].Active? && (IsData(n) || n.Tmp?) then s.(files := Put(s.files, n, t)) else s
  }

  // Readiness is reported only by a probe that ran the server; a killed probe reports nothing.
  function Exit(s: State, id: nat, ready: bool): (t: State)
    ensures SameHistory(s, t)
  {
    if id !in s.probes || s.probes[id].Exited? || (ready && !s.probes[id].Active?) then s else Leave(s, id, ready)
  }

  function Probes(s: State, a: Action): (t: State)
    ensures SameHistory(s, t)
  {
    match a
    case ProbeRead(id) => ReadMarker(s, id)
    case ProbeLock(id) => TakeLock(s, id)
    case ProbeRecheck(id) => ReadAgain(s, id)
    case ProbeWrite(id, n, t) => Serve(s, id, n, t)
    case ProbeExit(id, ready) => Exit(s, id, ready)
    case _ => s
  }

  function World(s: State, a: Action): State {
    match a
    case Die => s.(phase := Idle, locks := ReleaseUpdater(s.locks))
    case ServeStart => if s.phase.Idle? && s.marker.None? then s.(serving := true) else s
    case ServeWrite(n, t) => if s.serving && (IsData(n) || n.Tmp?) then s.(files := Put(s.files, n, t)) else s
    case ServeStop => s.(serving := false)
    case Tamper(b, n, t) =>
      if b in s.snapshots && !Busy(s.phase, b)
      then s.(snapshots := s.snapshots[b := Put(s.snapshots[b], n, t)], tampered := s.tampered + {b}) else s
    case LoseRuntime => if s.marker.Some? && s.marker.value.keepRuntime then s.(files := s.files - {Runtime}) else s
    case _ => s
  }

  function Apply(s: State, a: Action): State {
    if a.Die? || a.ServeStart? || a.ServeWrite? || a.ServeStop? || a.Tamper? || a.LoseRuntime? then World(s, a)
    else if a.ProbeRead? || a.ProbeLock? || a.ProbeRecheck? || a.ProbeWrite? || a.ProbeExit? then Probes(s, a)
    else if s.phase.Recovering? || HoldsSnapshot(s.phase) then Recover(s, a)
    else if s.phase.Installing? then Replace(s, a)
    else if s.phase.Installed? || s.phase.Probing? || s.phase.Verified? then Confirm(s, a)
    else Prepare(s, a)
  }

  function Run(s: State, actions: seq<Action>): State
    decreases |actions|
  {
    if actions == [] then s else Run(Apply(s, actions[0]), actions[1..])
  }
}
