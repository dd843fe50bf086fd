// The life of the target's old foreign keys during an Oracle to MySQL replacement
// (datamigrate/oraclemysql.go): dropped before any table is touched, restored when
// that is still safe, and otherwise reported. The writer, the journal's save results,
// table rebuilds and cancellation may turn out any way.
module ForeignKeyRun {
  import opened Wrappers

  type Key = string   // a target table name after case folding

  datatype Status =
    | Pending | NotRequired | Blocked
    | Running | Succeeded | Failed | Unknown | RolledBack | Reused

  // What a writer can report about a statement.
  predicate Reported(s: Status) { !s.Pending? && !s.NotRequired? && !s.Blocked? }

  datatype Dependency = Dependency(child: Key, parent: Key, drop: Status, restore: Status, failed: bool)

  // One thing a writer reports while it executes a statement.
  datatype Report = Report(status: Status, failed: bool)

  // What happened, in order: a statement was to be announced in the record, the writer was called (with the
  // tables touched so far, what it reported and returned, and whether the result could be recorded), or a table
  // was dropped and created anew.
  datatype Event =
    | Announced(i: nat, restore: bool, ok: bool)
    | Called(i: nat, restore: bool, touched: set<Key>, reports: seq<Report>, error: bool, saved: bool)
    | Rebuilt(table: Key, ok: bool)

  // A call counts by the last status it reported; one that reported nothing, or only that it runs, succeeded
  // exactly if it returned no error, and is unconfirmed otherwise.
  function Outcome(reports: seq<Report>, error: bool): Status {
    if reports != [] && reports[|reports| - 1].status != Running then reports[|reports| - 1].status
    else if error then Unknown else Succeeded
  }

  ghost predicate AllReported(reports: seq<Report>) {
    forall k :: 0 <= k < |reports| ==> Reported(reports[k].status)
  }

  predicate Alarming(s: Status) { s.Failed? || s.Unknown? || s.Blocked? || s.Running? }

  predicate DependencyFailures(deps: seq<Dependency>) {
    exists i :: 0 <= i < |deps| && (Alarming(deps[i].drop) || Alarming(deps[i].restore))
  }

  // What the run reports; the counters stand for the failed entries of its categories.
  predicate HasFailures(deps: seq<Dependency>, counted: nat) { DependencyFailures(deps) || counted > 0 }

  ghost predicate SameKeys(a: seq<Dependency>, b: seq<Dependency>) {
    |a| == |b| && forall i :: 0 <= i < |a| ==> a[i].child == b[i].child && a[i].parent == b[i].parent
  }

  function MarkUnrestored(d: Dependency): Dependency {
    if d.drop == Succeeded && d.restore == NotRequired then d.(restore := Blocked, failed := true) else d
  }

  function AllMarked(deps: seq<Dependency>): seq<Dependency> {
    seq(|deps|, i requires 0 <= i < |deps| => MarkUnrestored(deps[i]))
  }

  // Both ends of the key were rebuilt and are still in good order.
  predicate Healthy(d: Dependency, eligible: set<Key>) { d.child in eligible && d.parent in eligible }

  ghost predicate Untouched(d: Dependency, touched: set<Key>) { d.child !in touched && d.parent !in touched }

  // ---- What the log shows ----

  // The writer was called to drop key i (to restore it), and this is what came of it.
  ghost predicate Came(log: seq<Event>, i: nat, restore: bool, status: Status) {
    exists k :: 0 <= k < |log| && log[k].Called? && log[k].i == i && log[k].restore == restore
                && Outcome(log[k].reports, log[k].error) == status
  }

  // Key i was dropped without an error, and that is on record.
  ghost predicate DroppedCleanly(log: seq<Event>, i: nat) {
    exists k :: 0 <= k < |log| && log[k].Called? && log[k].i == i && !log[k].restore && !log[k].error && log[k].saved
  }

  ghost predicate Refused(log: seq<Event>, i: nat, restore: bool) { Announced(i, restore, false) in log }

  // The recorded status of a drop is what the log shows of it.
  ghost predicate DropTold(log: seq<Event>, d: Dependency, i: nat) {
    && (d.drop.Pending? || d.drop.Blocked? || Came(log, i, false, d.drop))
    && (forall status :: Came(log, i, false, status) ==> d.drop == status && Reported(status))
    && (d.drop.Blocked? ==> Refused(log, i, false))
  }

  ghost predicate DropsTold(log: seq<Event>, deps: seq<Dependency>) {
    forall i :: 0 <= i < |deps| ==> DropTold(log, deps[i], i)
  }

  // A dropped key was restored, with a status that is what the log shows, or is left to a manual decision
  // because an end was touched, the restore could not be announced, or the task was cancelled.
  ghost predicate Resolved(log: seq<Event>, d: Dependency, i: nat, touched: set<Key>, cancelled: bool) {
    || (Came(log, i, true, d.restore) && Reported(d.restore))
    || (d.restore.Blocked? && (!Untouched(d, touched) || Refused(log, i, true) || cancelled))
  }

  // No key that the log shows as dropped is forgotten.
  ghost predicate Accounted(log: seq<Event>, deps: seq<Dependency>, eligible: set<Key>, touched: set<Key>,
                            cancelled: bool) {
    forall i :: 0 <= i < |deps| && Came(log, i, false, Succeeded) ==>
      Healthy(deps[i], eligible) || Resolved(log, deps[i], i, touched, cancelled)
  }

  ghost predicate LogSafe(log: seq<Event>, deps: seq<Dependency>) {
    && (forall k :: 0 <= k < |log| && IsRestore(log[k]) ==>
          log[k].i < |deps| && Untouched(deps[log[k].i], log[k].touched))
    && (forall j, k :: 0 <= j < k < |log| && IsRestore(log[j]) && IsRestore(log[k]) ==> log[j].i != log[k].i)
    && (forall j, k :: 0 <= j < k < |log| && log[j].Rebuilt? ==> !IsDrop(log[k]))
  }

  predicate IsRestore(e: Event) { e.Called? && e.restore }

  predicate IsDrop(e: Event) { e.Called? && !e.restore }

  // The touched tables are those that were to be rebuilt.
  ghost predicate TouchedTold(log: seq<Event>, touched: set<Key>) {
    forall t :: t in touched <==> exists k :: 0 <= k < |log| && log[k].Rebuilt? && log[k].table == t
  }

  // Every old key was dropped without an error before the first table was rebuilt.
  ghost predicate DropsFirst(log: seq<Event>, n: nat) {
    (exists k :: 0 <= k < |log| && log[k].Rebuilt?) ==> forall i: nat :: i < n ==> DroppedCleanly(log, i)
  }

  // ---- Longer logs ----

  lemma CameStays(log: seq<Event>, more: seq<Event>)
    ensures forall i: nat, restore, status :: Came(log, i, restore, status) ==> Came(log + more, i, restore, status)
    ensures forall i: nat :: DroppedCleanly(log, i) ==> DroppedCleanly(log + more, i)
    ensures forall i: nat, restore :: Refused(log, i, restore) ==> Refused(log + more, i, restore)
  {
    assert forall k :: 0 <= k < |log| ==> (log + more)[k] == log[k];
  }

  // What is appended says nothing of the drop of key i, or of the restore of it.
  ghost predicate SaysNothing(more: seq<Event>, i: nat, restore: bool) {
    forall k :: 0 <= k < |more| ==> !(more[k].Called? && more[k].i == i && more[k].restore == restore)
  }

  lemma CameSplit(log: seq<Event>, more: seq<Event>, i: nat, restore: bool, status: Status)
    ensures Came(log + more, i, restore, status) <==> Came(log, i, restore, status) || Came(more, i, restore, status)
  {
    var all := log + more;
    assert forall k :: 0 <= k < |log| ==> all[k] == log[k];
    assert forall k :: 0 <= k < |more| ==> all[|log| + k] == more[k];
    if Came(all, i, restore, status) {
      var k :| 0 <= k < |all| && all[k].Called? && all[k].i == i && all[k].restore == restore
        && Outcome(all[k].reports, all[k].error) == status;
      assert all[k] == if k < |log| then log[k] else more[k - |log|];
    }
  }

  lemma CameOnly(log: seq<Event>, more: seq<Event>, i: nat, restore: bool, status: Status)
    requires SaysNothing(more, i, restore)
    ensures Came(log + more, i, restore, status) <==> Came(log, i, restore, status)
  {
    CameSplit(log, more, i, restore, status);
  }

  lemma DropToldStays(log: seq<Event>, more: seq<Event>, d: Dependency, i: nat)
    requires DropTold(log, d, i) && SaysNothing(more, i, false)
    ensures DropTold(log + more, d, i)
  {
    CameStays(log, more);
    forall status ensures Came(log + more, i, false, status) <==> Came(log, i, false, status) {
      CameOnly(log, more, i, false, status);
    }
  }

  lemma ResolvedStays(log: seq<Event>, more: seq<Event>, d: Dependency, i: nat, touched: set<Key>, cancelled: bool)
    requires Resolved(log, d, i, touched, cancelled)
    ensures Resolved(log + more, d, i, touched, cancelled)
  {
    CameStays(log, more);
  }

  // ---- One statement ----

  predicate AnyFailed(reports: seq<Report>) { exists k :: 0 <= k < |reports| && reports[k].failed }

  // What one attempt to drop or to restore key i adds to the log, and the status and error mark it leaves.
  ghost predicate Executed(more: seq<Event>, i: nat, restore: bool, touched: set<Key>, was: bool, status: Status,
                           failed: bool, ok: bool) {
    || (more == [Announced(i, restore, false)] && status.Blocked? && failed && !ok)
    || (|more| == 2 && more[0] == Announced(i, restore, true)
        && var c := more[1];
           && c.Called? && c.i == i && c.restore == restore && c.touched == touched && AllReported(c.reports)
           && status == Outcome(c.reports, c.error)
           && (ok <==> !c.error && c.saved)
           && (failed <==> c.error || (!restore && (was || AnyFailed(c.reports)))))
  }

  lemma ExecutedCame(log: seq<Event>, more: seq<Event>, i: nat, restore: bool, touched: set<Key>, was: bool,
                     status: Status, failed: bool, ok: bool)
    requires Executed(more, i, restore, touched, was, status, failed, ok)
    ensures status.Blocked? || (Came(log + more, i, restore, status) && Reported(status) && status != Running)
    ensures status.Blocked? ==> Refused(log + more, i, restore) && !ok
    ensures forall j: nat, r :: j != i || r != restore ==> SaysNothing(more, j, r)
    ensures !restore && ok ==> DroppedCleanly(log + more, i)
  {
    if |more| == 1 {
      assert (log + more)[|log|] == more[0];
    } else {
      var c := more[1];
      assert (log + more)[|log| + 1] == c;
      if c.reports != [] { assert Reported(c.reports[|c.reports| - 1].status); }
    }
  }

  // The drop of a key that was pending is told by the longer log.
  lemma DropRecorded(log: seq<Event>, more: seq<Event>, i: nat, touched: set<Key>, before: Dependency,
                     after: Dependency, ok: bool)
    requires DropTold(log, before, i) && before.drop.Pending?
    requires Executed(more, i, false, touched, before.failed, after.drop, after.failed, ok)
    ensures DropTold(log + more, after, i)
  {
    ExecutedCame(log, more, i, false, touched, before.failed, after.drop, after.failed, ok);
    forall status | Came(log + more, i, false, status) ensures status == after.drop && Reported(status) {
      CameSplit(log, more, i, false, status);
      assert !Came(log, i, false, status);
    }
  }

  lemma DropsKept(log: seq<Event>, more: seq<Event>, before: seq<Dependency>, after: seq<Dependency>, i: nat)
    requires DropsTold(log, before) && |after| == |before|
    requires forall j :: 0 <= j < |before| && j != i ==> after[j].drop == before[j].drop
    requires i < |before| ==> DropTold(log + more, after[i], i)
    requires forall j: nat :: j != i ==> SaysNothing(more, j, false)
    ensures DropsTold(log + more, after)
  {
    forall j | 0 <= j < |after| ensures DropTold(log + more, after[j], j) {
      if j != i {
        DropToldStays(log, more, before[j], j);
      }
    }
  }

  lemma LogSafeCalled(log: seq<Event>, more: seq<Event>, deps: seq<Dependency>, i: nat, restore: bool,
                      touched: set<Key>, was: bool, status: Status, failed: bool, ok: bool)
    requires LogSafe(log, deps) && i < |deps| && Executed(more, i, restore, touched, was, status, failed, ok)
    requires restore ==>
               Untouched(deps[i], touched) && forall k :: 0 <= k < |log| && IsRestore(log[k]) ==> log[k].i != i
    requires !restore ==> forall k :: 0 <= k < |log| ==> !log[k].Rebuilt?
    ensures LogSafe(log + more, deps)
  {
    var all := log + more;
    assert forall k :: 0 <= k < |all| ==> all[k] == if k < |log| then log[k] else more[k - |log|];
  }

  lemma LogSafeKeys(log: seq<Event>, a: seq<Dependency>, b: seq<Dependency>)
    requires LogSafe(log, a) && SameKeys(a, b)
    ensures LogSafe(log, b)
  {}

  // Of the restores that were sent from this moment on, each was of a key dropped before the one sent earlier.
  ghost predicate Backwards(log: seq<Event>, from: nat) {
    forall j, k :: from <= j < k < |log| && IsRestore(log[j]) && IsRestore(log[k]) ==> log[k].i < log[j].i
  }

  // The restores among the newest events are of keys not below i.
  ghost predicate RestoresOnly(log: seq<Event>, from: nat, low: int, high: int) {
    forall k :: from <= k < |log| ==>
      !log[k].Rebuilt? && !IsDrop(log[k]) && (IsRestore(log[k]) ==> low <= log[k].i < high)
  }

  lemma RestoresMore(log: seq<Event>, more: seq<Event>, from: nat, low: int, high: int, i: nat, touched: set<Key>,
                     was: bool, status: Status, failed: bool, ok: bool)
    requires from <= |log| && RestoresOnly(log, from, low, high) && low <= i < high
    requires Executed(more, i, true, touched, was, status, failed, ok)
    ensures RestoresOnly(log + more, from, low, high)
    ensures Backwards(log, from) && i < low ==> Backwards(log + more, from)
  {
    var all := log + more;
    assert forall k :: 0 <= k < |all| ==> all[k] == if k < |log| then log[k] else more[k - |log|];
  }

  lemma ResolvedLater(before: seq<Event>, log: seq<Event>, deps: seq<Dependency>, from: int, to: int, touched: set<Key>)
    requires before <= log && 0 <= from <= to <= |deps|
    ensures forall j :: from <= j < to && Resolved(before, deps[j], j, touched, false) ==>
              Resolved(log, deps[j], j, touched, false)
  {
    assert log == before + log[|before|..];
    forall j | from <= j < to && Resolved(before, deps[j], j, touched, false)
      ensures Resolved(log, deps[j], j, touched, false)
    {
      ResolvedStays(before, log[|before|..], deps[j], j, touched, false);
    }
  }

  lemma BackwardsNext(before: seq<Event>, log: seq<Event>, from: nat, i: nat)
    requires before <= log && from <= |before| && Backwards(before, from)
    requires forall k :: from <= k < |before| && IsRestore(before[k]) ==> i < before[k].i
    requires forall k :: |before| <= k < |log| && IsRestore(log[k]) ==> log[k].i == i
    requires forall j, k :: |before| <= j < k < |log| ==> !(IsRestore(log[j]) && IsRestore(log[k]))
    ensures Backwards(log, from)
  {}

  // A failed attempt to drop is on the log as such.
  lemma NotClean(log: seq<Event>, more: seq<Event>, i: nat, touched: set<Key>, was: bool, status: Status, failed: bool)
    requires Executed(more, i, false, touched, was, status, failed, false)
    requires forall k :: 0 <= k < |log| && IsDrop(log[k]) ==> log[k].i < i
    ensures !DroppedCleanly(log + more, i)
  {
    var all := log + more;
    assert forall k :: 0 <= k < |all| ==> all[k] == if k < |log| then log[k] else more[k - |log|];
  }

  lemma TouchedNext(log: seq<Event>, touched: set<Key>, t: Key, ok: bool)
    requires TouchedTold(log, touched) || TouchedTold(log, touched + {t})
    ensures TouchedTold(log + [Rebuilt(t, ok)], touched + {t})
  {
    var all := log + [Rebuilt(t, ok)];
    assert all[|log|] == Rebuilt(t, ok);
    assert forall k :: 0 <= k < |log| ==> all[k] == log[k];
  }

  lemma EligibleNext(log: seq<Event>, eligible: set<Key>, t: Key, ok: bool)
    requires EligibleTold(log, eligible)
    ensures EligibleTold(log + [Rebuilt(t, ok)], if ok then eligible + {t} else eligible)
  {}

  // A restore leaves drops as they are recorded and settles its key.
  lemma RestoreTold(log: seq<Event>, more: seq<Event>, before: seq<Dependency>, after: seq<Dependency>, i: nat,
                    touched: set<Key>, from: nat, low: int, high: int, ok: bool)
    requires SameKeys(before, after) && i < |before| && LogSafe(log, before) && DropsTold(log, before)
    requires forall j :: 0 <= j < |before| && j != i ==> after[j] == before[j]
    requires after[i].drop == before[i].drop && Untouched(before[i], touched)
    requires forall k :: 0 <= k < |log| && IsRestore(log[k]) ==> log[k].i != i
    requires Executed(more, i, true, touched, before[i].failed, after[i].restore, after[i].failed, ok)
    requires from <= |log| && RestoresOnly(log, from, low, high) && low <= i < high
    ensures LogSafe(log + more, after) && DropsTold(log + more, after) && RestoresOnly(log + more, from, low, high)
    ensures Resolved(log + more, after[i], i, touched, false)
    ensures forall k :: |log| <= k < |log + more| && IsRestore((log + more)[k]) ==> (log + more)[k].i == i
  {
    LogSafeCalled(log, more, before, i, true, touched, before[i].failed, after[i].restore, after[i].failed, ok);
    LogSafeKeys(log + more, before, after);
    ExecutedCame(log, more, i, true, touched, before[i].failed, after[i].restore, after[i].failed, ok);
    DropToldStays(log, more, before[i], i);
    DropsKept(log, more, before, after, i);
    RestoresMore(log, more, from, low, high, i, touched, before[i].failed, after[i].restore, after[i].failed, ok);
  }

  // The rebuilt tables are the first of the plan, in order.
  ghost predicate RebuiltInOrder(more: seq<Event>, tables: seq<Key>) {
    |more| <= |tables| && forall k :: 0 <= k < |more| ==> more[k].Rebuilt? && more[k].table == tables[k]
  }

  lemma RebuiltNext(log: seq<Event>, from: nat, tables: seq<Key>, k: nat, ok: bool)
    requires from <= |log| == from + k && k < |tables| && RebuiltInOrder(log[from..], tables)
    ensures RebuiltInOrder((log + [Rebuilt(tables[k], ok)])[from..], tables)
    ensures FailedRebuild(log + [Rebuilt(tables[k], ok)]) <==> FailedRebuild(log) || !ok
  {
    var all := log + [Rebuilt(tables[k], ok)];
    assert all[from..] == log[from..] + [Rebuilt(tables[k], ok)];
    assert all[|log|] == Rebuilt(tables[k], ok);
    assert forall j :: 0 <= j < |log| ==> all[j] == log[j];
  }

  ghost predicate FailedRebuild(log: seq<Event>) {
    exists k :: 0 <= k < |log| && log[k].Rebuilt? && !log[k].ok
  }

  // Tables whose rebuild the log shows as done.
  ghost predicate EligibleTold(log: seq<Event>, eligible: set<Key>) {
    forall t :: t in eligible <==> Rebuilt(t, true) in log
  }

  // What is known while the tables are rebuilt.
  ghost predicate Rebuilding(log: seq<Event>, from: nat, tables: seq<Key>, touched: set<Key>, eligible: set<Key>,
                             counted: nat) {
    && from <= |log| && RebuiltInOrder(log[from..], tables) && TouchedTold(log, touched) && EligibleTold(log, eligible)
    && (FailedRebuild(log) ==> counted > 0)
  }

  lemma RebuildingNext(log: seq<Event>, from: nat, tables: seq<Key>, before: set<Key>, touched: set<Key>,
                       eligible: set<Key>, counted: nat, k: nat, ok: bool)
    requires |log| == from + k && k < |tables| && touched == before + {tables[k]}
    requires Rebuilding(log, from, tables, before, eligible, counted)
             || Rebuilding(log, from, tables, touched, eligible, counted)
    ensures Rebuilding(log + [Rebuilt(tables[k], ok)], from, tables, touched,
                       if ok then eligible + {tables[k]} else eligible, if ok then counted else counted + 1)
  {
    TouchedNext(log, before, tables[k], ok);
    EligibleNext(log, eligible, tables[k], ok);
    RebuiltNext(log, from, tables, k, ok);
  }

  class Run {
    var deps: seq<Dependency>
    var touched: set<Key>
    var eligible: set<Key>
    var cancelled: bool
    var counted: nat
    var log: seq<Event>

    constructor (keys: seq<(Key, Key)>)
      ensures |deps| == |keys|
      ensures forall i :: 0 <= i < |keys| ==> deps[i] == Dependency(keys[i].0, keys[i].1, Pending, NotRequired, false)
      ensures touched == {} && eligible == {} && !cancelled && counted == 0 && log == []
    {
      deps := seq(|keys|, i requires 0 <= i < |keys| => Dependency(keys[i].0, keys[i].1, Pending, NotRequired, false));
      touched, eligible, cancelled, counted, log := {}, {}, false, 0, [];
    }

    // The task may be cancelled at any moment, and stays cancelled.
    method Tick()
      modifies this`cancelled
      ensures old(cancelled) ==> cancelled
    {
      var now: bool := *;
      cancelled := cancelled || now;
    }

    method SetStatus(i: nat, restore: bool, s: Status, failed: bool)
      requires i < |deps|
      modifies this`deps
      ensures deps == old(deps)[i := if restore then old(deps)[i].(restore := s, failed := failed)
                                     else old(deps)[i].(drop := s, failed := failed)]
    {
      deps := deps[i := if restore then deps[i].(restore := s, failed := failed)
        else deps[i].(drop := s, failed := failed)];
    }

    // The record may or may not be saved.
    method Announce(i: nat, restore: bool) returns (saved: bool)
      modifies this`log
      ensures log == old(log) + [Announced(i, restore, saved)]
    {
      saved := *;
      log := log + [Announced(i, restore, saved)];
    }

    // The writer reports what it likes and returns an error or none; saving the result may fail too.
    method Call(i: nat, restore: bool) returns (reports: seq<Report>, error: bool, saved: bool)
      modifies this`log, this`cancelled
      ensures log == old(log) + [Called(i, restore, touched, reports, error, saved)] && AllReported(reports)
      ensures old(cancelled) ==> cancelled
    {
      reports := [];
      var events: nat :| true;
      for k := 0 to events
        invariant AllReported(reports)
      {
        var r: Report := *;
        if Reported(r.status) { reports := reports + [r]; }
      }
      error, saved := *, *;
      Tick();
      log := log + [Called(i, restore, touched, reports, error, saved)];
    }

    // One DROP or one restore: announced, executed by the writer, and settled.
    method Execute(i: nat, restore: bool) returns (ok: bool, ghost more: seq<Event>)
      requires i < |deps|
      modifies this`deps, this`log, this`cancelled
      ensures SameKeys(old(deps), deps) && (old(cancelled) ==> cancelled)
      ensures forall j :: 0 <= j < |deps| && j != i ==> deps[j] == old(deps)[j]
      ensures if restore then deps[i].drop == old(deps)[i].drop else deps[i].restore == old(deps)[i].restore
      ensures log == old(log) + more
      ensures Executed(more, i, restore, touched, old(deps)[i].failed,
                       if restore then deps[i].restore else deps[i].drop, deps[i].failed, ok)
    {
      SetStatus(i, restore, Running, deps[i].failed);
      var announced := Announce(i, restore);
      if !announced {
        SetStatus(i, restore, Blocked, true);
        return false, [Announced(i, restore, false)];
      }
      var reports, error, saved := Call(i, restore);
      var observed, status, failed := false, Running, deps[i].failed;
      for k := 0 to |reports|
        invariant observed <==> k > 0
        invariant status == if k > 0 then reports[k - 1].status else Running
        invariant failed <==> deps[i].failed || AnyFailed(reports[..k])
      {
        observed, status := true, reports[k].status;
        failed := failed || reports[k].failed;
      }
      assert reports[..|reports|] == reports;
      if !observed || status == Running {
        status := if error then Unknown else Succeeded;
      }
      SetStatus(i, restore, status, error || (failed && !restore));
      ok := !error && saved;
      more := [Announced(i, restore, true), Called(i, restore, touched, reports, error, saved)];
    }

    // One dropped key: restored if both ends are still as they were, else left to a manual decision.
    method Resolve(i: nat, ghost from: nat, ghost low: int, ghost high: int)
      requires i < |deps| && LogSafe(log, deps) && DropsTold(log, deps)
      requires from <= |log| && RestoresOnly(log, from, low, high) && low <= i < high
      requires forall k :: 0 <= k < |log| && IsRestore(log[k]) ==> log[k].i != i
      modifies this`deps, this`log, this`cancelled
      ensures SameKeys(old(deps), deps) && LogSafe(log, deps) && DropsTold(log, deps) && (old(cancelled) ==> cancelled)
      ensures forall j :: 0 <= j < |deps| && j != i ==> deps[j] == old(deps)[j]
      ensures deps[i].drop == old(deps)[i].drop && Resolved(log, deps[i], i, touched, false)
      ensures !Untouched(deps[i], touched) ==> log == old(log)
      ensures old(log) <= log && RestoresOnly(log, from, low, high)
      ensures forall k :: |old(log)| <= k < |log| && IsRestore(log[k]) ==> log[k].i == i
    {
      if deps[i].child in touched || deps[i].parent in touched {
        SetStatus(i, true, Blocked, true);
      } else {
        ghost var before, keys := log, deps;
        ghost var more;
        var ok;
        ok, more := Execute(i, true);
        RestoreTold(before, more, keys, deps, i, touched, from, low, high, ok);
      }
    }

    // After a failure: every dropped key whose ends are still as they were is put
    // back, last dropped first; the others need a manual decision.
    method RestoreAll()
      requires forall k :: 0 <= k < |log| ==> !IsRestore(log[k])
      requires LogSafe(log, deps) && DropsTold(log, deps)
      modifies this`deps, this`log, this`cancelled
      ensures SameKeys(old(deps), deps) && LogSafe(log, deps) && DropsTold(log, deps) && (old(cancelled) ==> cancelled)
      ensures old(log) <= log && RestoresOnly(log, |old(log)|, 0, |deps|) && Backwards(log, |old(log)|)
      ensures forall i :: 0 <= i < |deps| ==> deps[i].drop == old(deps)[i].drop
      ensures forall i :: 0 <= i < |deps| && deps[i].drop == Succeeded ==> Resolved(log, deps[i], i, touched, false)
    {
      var i := |deps|;
      while i > 0
        invariant 0 <= i <= |deps| && SameKeys(old(deps), deps) && (old(cancelled) ==> cancelled)
        invariant LogSafe(log, deps) && DropsTold(log, deps) && old(log) <= log
        invariant RestoresOnly(log, |old(log)|, i, |deps|) && Backwards(log, |old(log)|)
        invariant forall j :: 0 <= j < |deps| ==> deps[j].drop == old(deps)[j].drop
        invariant forall j :: i <= j < |deps| && deps[j].drop == Succeeded ==> Resolved(log, deps[j], j, touched, false)
      {
        i := i - 1;
        if deps[i].drop == Succeeded {
          ghost var before := log;
          Resolve(i, |old(log)|, i, |deps|);
          ResolvedLater(before, log, deps, i + 1, |deps|, touched);
          BackwardsNext(before, log, |old(log)|, i);
        }
      }
    }

    method MarkAllUnrestored()
      modifies this`deps
      ensures deps == AllMarked(old(deps))
    {
      for i := 0 to |deps|
        invariant |deps| == |old(deps)|
        invariant forall j :: 0 <= j < i ==> deps[j] == MarkUnrestored(old(deps)[j])
        invariant forall j :: i <= j < |deps| ==> deps[j] == old(deps)[j]
      {
        deps := deps[i := MarkUnrestored(deps[i])];
      }
    }

    // The ordinary end: keys between healthy replacements are left to the source's
    // own constraints, the rest is restored or reported.
    method Finalize()
      requires forall k :: 0 <= k < |log| ==> !IsRestore(log[k])
      requires LogSafe(log, deps) && DropsTold(log, deps)
      modifies this`deps, this`log, this`cancelled
      ensures SameKeys(old(deps), deps) && LogSafe(log, deps) && DropsTold(log, deps) && (old(cancelled) ==> cancelled)
      ensures old(log) <= log && RestoresOnly(log, |old(log)|, 0, |deps|)
      ensures forall i :: 0 <= i < |deps| ==> deps[i].drop == old(deps)[i].drop
      ensures forall i :: 0 <= i < |deps| && deps[i].drop == Succeeded && !Healthy(deps[i], eligible) ==>
                Resolved(log, deps[i], i, touched, false)
      ensures forall i :: 0 <= i < |deps| && Healthy(deps[i], eligible) ==> deps[i] == old(deps)[i]
    {
      for i := 0 to |deps|
        invariant SameKeys(old(deps), deps) && (old(cancelled) ==> cancelled)
        invariant LogSafe(log, deps) && DropsTold(log, deps) && old(log) <= log
        invariant RestoresOnly(log, |old(log)|, 0, i)
        invariant forall j :: 0 <= j < |deps| ==> deps[j].drop == old(deps)[j].drop
        invariant forall j :: i <= j < |deps| ==> deps[j] == old(deps)[j]
        invariant forall j :: 0 <= j < i && Healthy(deps[j], eligible) ==> deps[j] == old(deps)[j]
        invariant forall j :: 0 <= j < i && deps[j].drop == Succeeded && !Healthy(deps[j], eligible) ==>
                    Resolved(log, deps[j], j, touched, false)
      {
        if deps[i].drop == Succeeded && !Healthy(deps[i], eligible) {
          ghost var before := log;
          Resolve(i, |old(log)|, 0, i + 1);
          ResolvedLater(before, log, deps, 0, i, touched);
        }
      }
    }

    // Dropping all old keys; the first failure ends the attempt.
    method DropAll() returns (ok: bool)
      requires log == [] && forall i :: 0 <= i < |deps| ==> deps[i].restore == NotRequired && deps[i].drop == Pending
      modifies this`deps, this`log, this`cancelled
      ensures SameKeys(old(deps), deps) && (old(cancelled) ==> cancelled)
      ensures forall k :: 0 <= k < |log| ==> !log[k].Rebuilt? && !IsRestore(log[k])
      ensures DropsTold(log, deps) && forall i :: 0 <= i < |deps| ==> deps[i].restore == NotRequired
      ensures ok ==> forall i: nat :: i < |deps| ==> DroppedCleanly(log, i)
      ensures !ok ==> exists i: nat :: i < |deps| && !DroppedCleanly(log, i) && deps[i + 1..] == old(deps)[i + 1..]
    {
      for i := 0 to |deps|
        invariant SameKeys(old(deps), deps) && (old(cancelled) ==> cancelled)
        invariant forall k :: 0 <= k < |log| ==>
                    !log[k].Rebuilt? && !IsRestore(log[k]) && (IsDrop(log[k]) ==> log[k].i < i)
        invariant DropsTold(log, deps) && forall j :: 0 <= j < |deps| ==> deps[j].restore == NotRequired
        invariant forall j :: i <= j < |deps| ==> deps[j] == old(deps)[j]
        invariant forall j: nat :: j < i ==> DroppedCleanly(log, j)
      {
        ghost var before, keys := log, deps;
        ghost var more;
        var dropped;
        dropped, more := Execute(i, false);
        ExecutedCame(before, more, i, false, touched, keys[i].failed, deps[i].drop, deps[i].failed, dropped);
        DropRecorded(before, more, i, touched, keys[i], deps[i], dropped);
        DropsKept(before, more, keys, deps, i);
        CameStays(before, more);
        if !dropped {
          NotClean(before, more, i, touched, keys[i].failed, deps[i].drop, deps[i].failed);
          return false;
        }
      }
      ok := true;
    }

    // Rebuilding the tables of the plan in order.
    method RebuildAll(tables: seq<Key>) returns (ok: bool)
      requires forall k :: 0 <= k < |log| ==> !log[k].Rebuilt? && !IsRestore(log[k])
      requires touched == {} && eligible == {}
      modifies this`touched, this`eligible, this`log, this`cancelled, this`counted
      ensures old(cancelled) ==> cancelled
      ensures old(counted) <= counted && old(log) <= log && RebuiltInOrder(log[|old(log)|..], tables)
      ensures ok ==> |log| == |old(log)| + |tables|
      ensures TouchedTold(log, touched) && EligibleTold(log, eligible)
      ensures FailedRebuild(log) ==> counted > 0
      ensures !ok ==> cancelled || counted > old(counted)
    {
      for k := 0 to |tables|
        invariant (old(cancelled) ==> cancelled) && old(counted) <= counted && old(log) <= log
        invariant |log| == |old(log)| + k && Rebuilding(log, |old(log)|, tables, touched, eligible, counted)
      {
        Tick();
        if cancelled { return false; }
        touched := touched + {tables[k]};
        var done: bool := *;
        ghost var before := log;
        log := log + [Rebuilt(tables[k], done)];
        RebuildingNext(before, |old(log)|, tables, touched - {tables[k]}, touched, eligible, counted, k, done);
        if done { eligible := eligible + {tables[k]}; } else { counted := counted + 1; }
        if !done {
          var stop: bool := *;
          if stop { return false; }
        }
      }
      ok := true;
    }

    // Copying and counting rows: tables may lose their good standing.
    method CopyAll()
      modifies this`eligible, this`cancelled, this`counted
      ensures eligible <= old(eligible) && (old(cancelled) ==> cancelled) && old(counted) <= counted
      ensures eligible == old(eligible) || counted > old(counted)
    {
      var lost: set<Key> := *;
      var left := eligible - lost;
      if left != eligible { counted := counted + 1; }
      eligible := left;
      Tick();
    }

    // The part of a run that changes the target, up to any of its exits.
    method Body(tables: seq<Key>)
      requires log == [] && touched == {} && eligible == {}
      requires forall i :: 0 <= i < |deps| ==> deps[i].drop == Pending && deps[i].restore == NotRequired
      modifies this
      ensures SameKeys(old(deps), deps) && LogSafe(log, deps) && DropsFirst(log, |deps|)
      ensures DropsTold(log, deps) && TouchedTold(log, touched) && old(counted) <= counted
      ensures forall t :: t in eligible ==> Rebuilt(t, true) in log
      ensures OpenOrResolved(log, deps, touched, cancelled)
      ensures cancelled || Accounted(log, deps, eligible, touched, false)
    {
      var dropped := DropAll();
      if !dropped {
        counted := counted + 1;
        RestoreAll();
        OnlyToldDrops(log, deps, eligible, touched);
        return;
      }
      ghost var drops, keys := log, deps;
      var rebuilt := RebuildAll(tables);
      RebuildKeeps(drops, log, keys);
      if !rebuilt {
        ghost var before := log;
        RestoreAll();
        RestoresKeep(before, log, touched, |deps|);
        OnlyToldDrops(log, deps, eligible, touched);
        return;
      }
      CopyAll();
      if cancelled {
        MarkAllUnrestored();
        MarkedIsResolved(log, keys, touched);
        return;
      }
      Tick();   // primary keys, indexes and source foreign keys
      if cancelled { return; }
      ghost var before := log;
      Finalize();
      RestoresKeep(before, log, touched, |deps|);
      OnlyToldDrops(log, deps, eligible, touched);
      Tick();
    }

    // A whole run, with the report that is built whichever way it ends.
    method Execution(tables: seq<Key>)
      requires log == [] && touched == {} && eligible == {}
      requires forall i :: 0 <= i < |deps| ==> deps[i].drop == Pending && deps[i].restore == NotRequired
      modifies this
      ensures SameKeys(old(deps), deps) && LogSafe(log, deps) && DropsFirst(log, |deps|)
      ensures DropsTold(log, deps) && TouchedTold(log, touched)
      ensures forall t :: t in eligible ==> Rebuilt(t, true) in log
      ensures Accounted(log, deps, eligible, touched, cancelled)
      ensures forall i :: 0 <= i < |deps| && Came(log, i, false, Succeeded) && deps[i].restore == NotRequired ==>
                && deps[i].child in eligible && deps[i].parent in eligible
                && Rebuilt(deps[i].child, true) in log && Rebuilt(deps[i].parent, true) in log
      ensures forall i :: 0 <= i < |deps| && (Came(log, i, false, Failed) || Came(log, i, false, Unknown)) ==>
              HasFailures(deps, counted)
      ensures cancelled ==> HasFailures(deps, counted)
    {
      var early: bool := *;   // cancelled, nothing to rebuild, or a failed recheck before the first drop
      if !early { Body(tables); }
      if cancelled {
        ghost var before := deps;
        MarkAllUnrestored();
        MarkedIsResolved(log, before, touched);
        if counted == 0 { counted := 1; }   // the dependency list joins the report only afterwards
      }
      FailedDropsShow(log, deps, counted);
    }
  }

  // ---------------------------------------------------------------------------
  // What the pieces mean
  // ---------------------------------------------------------------------------

  // A dropped key either waits for the end of the run or is resolved.
  ghost predicate OpenOrResolved(log: seq<Event>, deps: seq<Dependency>, touched: set<Key>, cancelled: bool) {
    forall i :: 0 <= i < |deps| && deps[i].drop == Succeeded ==>
      deps[i].restore.NotRequired? || Resolved(log, deps[i], i, touched, cancelled)
  }

  // Where recorded drops are what the log shows, accounting for the recorded ones accounts for all.
  lemma OnlyToldDrops(log: seq<Event>, deps: seq<Dependency>, eligible: set<Key>, touched: set<Key>)
    requires DropsTold(log, deps)
    requires forall i :: 0 <= i < |deps| && deps[i].drop == Succeeded && !Healthy(deps[i], eligible) ==>
               Resolved(log, deps[i], i, touched, false)
    ensures Accounted(log, deps, eligible, touched, false)
  {
    forall i | 0 <= i < |deps| && Came(log, i, false, Succeeded) ensures deps[i].drop == Succeeded {
      assert DropTold(log, deps[i], i);
    }
  }

  // A drop that failed or is unconfirmed shows in the report.
  lemma FailedDropsShow(log: seq<Event>, deps: seq<Dependency>, counted: nat)
    requires DropsTold(log, deps)
    ensures forall i :: 0 <= i < |deps| && (Came(log, i, false, Failed) || Came(log, i, false, Unknown)) ==>
              HasFailures(deps, counted)
  {
    forall i | 0 <= i < |deps| && (Came(log, i, false, Failed) || Came(log, i, false, Unknown))
      ensures Alarming(deps[i].drop)
    {
      assert DropTold(log, deps[i], i);
    }
  }

  lemma RebuildKeeps(drops: seq<Event>, log: seq<Event>, deps: seq<Dependency>)
    requires drops <= log && DropsTold(drops, deps)
    requires forall k :: 0 <= k < |drops| ==> !drops[k].Rebuilt? && !IsRestore(drops[k])
    requires forall k :: |drops| <= k < |log| ==> log[k].Rebuilt?
    requires forall i: nat :: i < |deps| ==> DroppedCleanly(drops, i)
    ensures DropsTold(log, deps) && LogSafe(log, deps) && DropsFirst(log, |deps|)
    ensures forall k :: 0 <= k < |log| ==> !IsRestore(log[k])
  {
    var more := log[|drops|..];
    assert log == drops + more;
    CameStays(drops, more);
    forall i | 0 <= i < |deps| ensures DropTold(log, deps[i], i) { DropToldStays(drops, more, deps[i], i); }
  }

  lemma RestoresKeep(before: seq<Event>, log: seq<Event>, touched: set<Key>, n: nat)
    requires before <= log && RestoresOnly(log, |before|, 0, n)
    ensures TouchedTold(before, touched) ==> TouchedTold(log, touched)
    ensures DropsFirst(before, n) ==> DropsFirst(log, n)
    ensures forall t :: Rebuilt(t, true) in before ==> Rebuilt(t, true) in log
  {
    var more := log[|before|..];
    assert log == before + more;
    CameStays(before, more);
    assert forall k :: 0 <= k < |before| ==> log[k] == before[k];
  }

  // Marking resolves what was open, by a manual decision.
  lemma MarkedIsResolved(log: seq<Event>, deps: seq<Dependency>, touched: set<Key>)
    requires DropsTold(log, deps)
    requires OpenOrResolved(log, deps, touched, true)
    ensures DropsTold(log, AllMarked(deps)) && SameKeys(deps, AllMarked(deps))
    ensures OpenOrResolved(log, AllMarked(deps), touched, true)
    ensures forall eligible :: Accounted(log, AllMarked(deps), eligible, touched, true)
  {
    forall i | 0 <= i < |deps| ensures DropTold(log, AllMarked(deps)[i], i) { assert DropTold(log, deps[i], i); }
    forall i | 0 <= i < |deps| && AllMarked(deps)[i].drop == Succeeded
      ensures Resolved(log, AllMarked(deps)[i], i, touched, true)
    {
      assert deps[i].restore.NotRequired? || Resolved(log, deps[i], i, touched, true);
    }
    forall i | 0 <= i < |deps| && Came(log, i, false, Succeeded) ensures AllMarked(deps)[i].drop == Succeeded {
      assert DropTold(log, AllMarked(deps)[i], i);
    }
  }

  // A report shows a failure for a key exactly if a drop or a restore failed, was blocked, or is not known to
  // have ended.
  lemma FailureShows(deps: seq<Dependency>, counted: nat)
    ensures HasFailures(deps, counted) <==>
              counted > 0 || exists d :: d in deps && ({d.drop, d.restore} * {Failed, Blocked, Unknown, Running}) != {}
  {
    forall i | 0 <= i < |deps|
      ensures (Alarming(deps[i].drop) || Alarming(deps[i].restore)) <==>
                ({deps[i].drop, deps[i].restore} * {Failed, Blocked, Unknown, Running}) != {}
    {
      var d := deps[i];
      assert Alarming(d.drop) ==> d.drop in {d.drop, d.restore} * {Failed, Blocked, Unknown, Running};
      assert Alarming(d.restore) ==> d.restore in {d.drop, d.restore} * {Failed, Blocked, Unknown, Running};
    }
  }

  // Marking forgets no dropped key, and shows as a failure exactly if there was something to mark.
  lemma MarkingAccounts(deps: seq<Dependency>)
    ensures SameKeys(deps, AllMarked(deps))
    ensures forall i :: 0 <= i < |deps| && deps[i].drop == Succeeded ==> AllMarked(deps)[i].restore != NotRequired
    ensures forall i :: 0 <= i < |deps| && deps[i].drop == Succeeded && deps[i].restore == NotRequired ==>
              AllMarked(deps)[i].restore == Blocked && AllMarked(deps)[i].failed
    ensures forall i :: 0 <= i < |deps| && !(deps[i].drop == Succeeded && deps[i].restore == NotRequired) ==>
              AllMarked(deps)[i] == deps[i]
    ensures DependencyFailures(AllMarked(deps)) <==>
              DependencyFailures(deps)
              || exists i :: 0 <= i < |deps| && deps[i].drop == Succeeded && deps[i].restore == NotRequired
  {
    var marked := AllMarked(deps);
    forall i | 0 <= i < |deps|
      ensures (Alarming(marked[i].drop) || Alarming(marked[i].restore)) <==>
                Alarming(deps[i].drop) || Alarming(deps[i].restore)
                || (deps[i].drop == Succeeded && deps[i].restore == NotRequired)
    {}
  }
}
