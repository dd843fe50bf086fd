// The execution journal of datamigrate/repair_manifest.go: what captureRepairCall
// makes of the events a writer emits, and what is durable when a statement starts.
module Journal {
  import opened Wrappers

  type Id = string
  type Sql = string

  datatype Status = Pending | Running | Succeeded | Failed | Unknown | RolledBack | Blocked

  datatype Unit = Unit(sql: Sql, status: Status, error: string)

  datatype Record = Record(units: seq<Unit>, status: Status, error: string)

  // `Reused` reports an object found in place; every other event carries the unit's new status.
  datatype EventKind = Reused | Reports(status: Status)

  datatype Event = Event(sql: Sql, kind: EventKind, error: string)

  const STARTS: EventKind := Reports(Running)

  // ---------------------------------------------------------------------------
  // One call, as a function of its events
  // ---------------------------------------------------------------------------

  // What sets a call apart: a comment may take the two-save path, and the statement that creates a native
  // sequence begins with a known text but may get a later start value.
  datatype Form = Ordinary | Comment | Sequence(create: Sql)

  // The record being written and the observer's own variables: which units saw
  // their running event, and the progress of the two-save path for one comment.
  datatype Session = Session(record: Record, observed: set<nat>, compactStarted: bool, compact: bool, events: nat,
                             form: Form)

  function PendingUnits(sqls: seq<Sql>): seq<Unit> {
    seq(|sqls|, i requires 0 <= i < |sqls| => Unit(sqls[i], Pending, ""))
  }

  function Begin(sqls: seq<Sql>, form: Form): Session {
    var compact := form.Comment? && |sqls| == 1;
    var units := PendingUnits(sqls);
    Session(Record(if compact then [units[0].(status := Running)] else units, Running, ""), {}, compact, compact, 0,
            form)
  }

  predicate Eligible(u: Unit, seen: bool, e: Event) {
    u.sql == e.sql && ((e.kind == Reused && u.status == Pending) || (e.kind == STARTS && !seen)
                       || (e.kind != STARTS && u.status == Running))
  }

  function FirstEligible(units: seq<Unit>, observed: set<nat>, e: Event, i: nat): Option<nat>
    decreases |units| - i
  {
    if i >= |units| then None
    else if Eligible(units[i], i in observed, e) then Some(i)
    else FirstEligible(units, observed, e, i + 1)
  }

  function LastEligible(units: seq<Unit>, observed: set<nat>, e: Event, n: nat): Option<nat>
    requires n <= |units|
  {
    if n == 0 then None
    else if Eligible(units[n - 1], (n - 1) in observed, e) then Some(n - 1)
    else LastEligible(units, observed, e, n - 1)
  }

  // A failure belongs to the unit matched last, any other event to the one matched first.
  function Match(units: seq<Unit>, observed: set<nat>, e: Event): Option<nat> {
    if e.kind == Reports(Failed) then LastEligible(units, observed, e, |units|)
    else FirstEligible(units, observed, e, 0)
  }

  function StatusOf(e: Event): Status { if e.kind.Reused? then Succeeded else e.kind.status }

  predicate Creates(form: Form, sql: Sql) { form.Sequence? && form.create <= sql }

  // A unit not yet run that would create the sequence with an outdated start value.
  predicate Outdated(form: Form, u: Unit, seen: bool) { u.status == Pending && !seen && Creates(form, u.sql) }

  function FirstOutdated(form: Form, units: seq<Unit>, observed: set<nat>, i: nat): Option<nat>
    decreases |units| - i
  {
    if i >= |units| then None
    else if Outdated(form, units[i], i in observed) then Some(i)
    else FirstOutdated(form, units, observed, i + 1)
  }

  // Which unit an event marks: the matching one, for a creating statement without one the outdated unit
  // that it replaces, else one that is added.
  function Marked(s: Session, e: Event): nat {
    var found := Match(s.record.units, s.observed, e);
    if found.Some? then found.value
    else if e.kind != STARTS || !Creates(s.form, e.sql) then |s.record.units|
    else var outdated := FirstOutdated(s.form, s.record.units, s.observed, 0);
         if outdated.Some? then outdated.value else |s.record.units|
  }

  function Mark(s: Session, e: Event): Session {
    var i := Marked(s, e);
    var units := if i < |s.record.units| then s.record.units else s.record.units + [Unit(e.sql, Pending, "")];
    MarkedInRange(s, e);
    s.(record := s.record.(units := units[i := Unit(e.sql, StatusOf(e), e.error)]),
       observed := if e.kind == STARTS then s.observed + {i} else s.observed)
  }

  lemma MarkedInRange(s: Session, e: Event)
    ensures Marked(s, e) <= |s.record.units|
  {
    MatchInRange(s.record.units, s.observed, e);
    OutdatedInRange(s.form, s.record.units, s.observed, 0);
  }

  lemma {:induction false} OutdatedInRange(form: Form, units: seq<Unit>, observed: set<nat>, from: nat)
    requires from <= |units|
    ensures match FirstOutdated(form, units, observed, from)
            case None => forall j :: from <= j < |units| ==> !Outdated(form, units[j], j in observed)
            case Some(i) => from <= i < |units| && Outdated(form, units[i], i in observed)
                            && forall j :: from <= j < i ==> !Outdated(form, units[j], j in observed)
    decreases |units| - from
  {
    if from < |units| { OutdatedInRange(form, units, observed, from + 1); }
  }

  lemma MatchInRange(units: seq<Unit>, observed: set<nat>, e: Event)
    ensures Match(units, observed, e).Some? ==> Match(units, observed, e).value < |units|
  {
    FirstInRange(units, observed, e, 0);
    LastInRange(units, observed, e, |units|);
  }

  lemma {:induction false} FirstInRange(units: seq<Unit>, observed: set<nat>, e: Event, from: nat)
    requires from <= |units|
    ensures match FirstEligible(units, observed, e, from)
            case None => forall j :: from <= j < |units| ==> !Eligible(units[j], j in observed, e)
            case Some(i) => from <= i < |units| && Eligible(units[i], i in observed, e)
                            && forall j :: from <= j < i ==> !Eligible(units[j], j in observed, e)
    decreases |units| - from
  {
    if from < |units| { FirstInRange(units, observed, e, from + 1); }
  }

  lemma {:induction false} LastInRange(units: seq<Unit>, observed: set<nat>, e: Event, n: nat)
    requires n <= |units|
    ensures match LastEligible(units, observed, e, n)
            case None => forall j :: 0 <= j < n ==> !Eligible(units[j], j in observed, e)
            case Some(i) => i < n && Eligible(units[i], i in observed, e)
                            && forall j :: i < j < n ==> !Eligible(units[j], j in observed, e)
  {
    if n > 0 { LastInRange(units, observed, e, n - 1); }
  }

  predicate Terminal(k: EventKind) { k == Reports(Succeeded) || k == Reports(Failed) || k == Reports(Unknown) }

  // The two-save path accepts exactly one running event and one outcome of its statement.
  predicate FirstOfComment(s: Session, e: Event) {
    s.compact && s.events == 0 && s.record.units != [] && e.sql == s.record.units[0].sql && e.kind == STARTS
  }

  predicate LastOfComment(s: Session, e: Event) {
    s.compact && s.events == 1 && s.record.units != [] && e.sql == s.record.units[0].sql && Terminal(e.kind)
  }

  predicate Deferred(s: Session, e: Event) { FirstOfComment(s, e) || LastOfComment(s, e) }

  // Any other event falls back to the ordinary path.
  function Prepare(s: Session, e: Event): Session {
    if FirstOfComment(s, e) then s.(events := 1)
    else if LastOfComment(s, e) then s.(events := 2)
    else if s.compact then
      var units := if s.events == 0 && s.record.units != []
                   then s.record.units[0 := s.record.units[0].(status := Pending)] else s.record.units;
      s.(compact := false, record := s.record.(units := units))
    else s
  }

  function Step(s: Session, e: Event): Session { Mark(Prepare(s, e), e) }

  function Steps(s: Session, es: seq<Event>): Session {
    if es == [] then s else Step(Steps(s, es[..|es| - 1]), es[|es| - 1])
  }

  // ---------------------------------------------------------------------------
  // The end of a call
  // ---------------------------------------------------------------------------

  datatype Result = Result(record: Record, error: Option<string>)

  function SetFirst(units: seq<Unit>, status: Status): seq<Unit> {
    if units == [] then [] else units[0 := units[0].(status := status)]
  }

  // Units before the final pass: an unobserved comment is pending again, and one
  // displaced by a different statement is not known to have run.
  function Reopened(s: Session): seq<Unit> {
    var units := if s.compactStarted && s.compact && s.events == 0 then SetFirst(s.record.units, Pending)
      else s.record.units;
    if s.compactStarted && !s.compact && 0 !in s.observed && units != [] && units[0].status == Pending
    then SetFirst(units, Unknown) else units
  }

  predicate Broken(units: seq<Unit>) {
    exists i :: 0 <= i < |units| && (units[i].status == Failed || units[i].status == RolledBack)
  }

  function FinalStatus(st: Status, failed: bool, silent: bool): Status {
    if st == Running then Unknown
    else if st == Pending && !failed then Succeeded
    else if st == Pending && silent then Unknown
    else st
  }

  function FinalUnits(units: seq<Unit>, failed: bool, silent: bool): seq<Unit> {
    seq(|units|, i requires 0 <= i < |units| => units[i].(status := FinalStatus(units[i].status, failed, silent)))
  }

  predicate AnyUnknown(units: seq<Unit>) { exists i :: 0 <= i < |units| && units[i].status == Unknown }

  // `preflight` is an error known to precede any statement.
  function Close(s: Session, err: Option<string>, preflight: bool): Result {
    var units := Reopened(s);
    var cause := if s.compactStarted && err.None? && Broken(units) then Some("not successful") else err;
    var done := FinalUnits(units, cause.Some?, s.observed == {} && !(preflight && err.Some?));
    var status := if AnyUnknown(done) then Unknown else if cause.Some? then Failed else Succeeded;
    var last := if s.compactStarted && status == Unknown && cause.None? then Some("not confirmed") else cause;
    Result(Record(done, status, if last.Some? then last.value else ""), last)
  }

  // ---------------------------------------------------------------------------
  // Matching events to repeated statements
  // ---------------------------------------------------------------------------

  // How many of the first n units carry this text.
  function Rank(units: seq<Unit>, sql: Sql, n: nat): nat
    requires n <= |units|
  {
    if n == 0 then 0 else Rank(units, sql, n - 1) + (if units[n - 1].sql == sql then 1 else 0)
  }

  function Started(es: seq<Event>, sql: Sql): nat {
    if es == [] then 0
    else Started(es[..|es| - 1], sql) + (if es[|es| - 1].sql == sql && es[|es| - 1].kind == STARTS then 1 else 0)
  }

  // The k-th unit of a text was observed exactly if more than k running events carried that text.
  ghost predicate UnitInOrder(s: Session, es: seq<Event>, i: nat)
    requires i < |s.record.units|
  {
    i in s.observed <==> Rank(s.record.units, s.record.units[i].sql, i) < Started(es, s.record.units[i].sql)
  }

  ghost predicate InOrder(s: Session, es: seq<Event>) {
    && (forall i :: i in s.observed ==> i < |s.record.units|)
    && (forall i :: 0 <= i < |s.record.units| ==> UnitInOrder(s, es, i))
    && (forall sql :: Started(es, sql) <= Rank(s.record.units, sql, |s.record.units|))
  }

  lemma {:induction false} RankMonotone(units: seq<Unit>, sql: Sql, m: nat, n: nat)
    requires m <= n <= |units|
    ensures Rank(units, sql, m) <= Rank(units, sql, n)
    ensures m < n && units[m].sql == sql ==> Rank(units, sql, m) < Rank(units, sql, n)
    decreases n - m
  {
    if m < n { RankMonotone(units, sql, m + 1, n); }
  }

  lemma {:induction false} RankSame(a: seq<Unit>, b: seq<Unit>, sql: Sql, n: nat)
    requires n <= |a| && n <= |b| && forall i :: 0 <= i < n ==> a[i].sql == b[i].sql
    ensures Rank(a, sql, n) == Rank(b, sql, n)
  {
    if n > 0 { RankSame(a, b, sql, n - 1); }
  }

  // Of the units with a text, the one of a given rank exists.
  lemma {:induction false} OfRank(units: seq<Unit>, sql: Sql, n: nat, k: nat) returns (i: nat)
    requires n <= |units| && k < Rank(units, sql, n)
    ensures i < n && units[i].sql == sql && Rank(units, sql, i) == k
  {
    if k < Rank(units, sql, n - 1) { i := OfRank(units, sql, n - 1, k); } else { i := n - 1; }
  }

  ghost predicate SameSql(a: seq<Unit>, b: seq<Unit>) {
    |a| == |b| && forall i :: 0 <= i < |a| ==> a[i].sql == b[i].sql
  }

  lemma InOrderKept(s: Session, t: Session, es: seq<Event>)
    requires InOrder(s, es) && t.observed == s.observed && SameSql(s.record.units, t.record.units)
    ensures InOrder(t, es)
  {
    forall i, sql | 0 <= i <= |s.record.units| ensures Rank(s.record.units, sql, i) == Rank(t.record.units, sql, i) {
      RankSame(s.record.units, t.record.units, sql, i);
    }
    forall i | 0 <= i < |t.record.units| ensures UnitInOrder(t, es, i) { assert UnitInOrder(s, es, i); }
  }

  // The event creates the sequence with a new text, in the place of an outdated unit.
  predicate Replaces(s: Session, e: Event) {
    && e.kind == STARTS && Creates(s.form, e.sql) && Match(s.record.units, s.observed, e).None?
    && FirstOutdated(s.form, s.record.units, s.observed, 0).Some?
  }

  lemma ReplacedUnit(s: Session, e: Event)
    requires Replaces(s, e)
    ensures var units, m := s.record.units, Marked(s, e);
            && m < |units| && m !in s.observed && units[m].status == Pending && Creates(s.form, units[m].sql)
            && units[m].sql != e.sql
            && forall i :: 0 <= i < |units| && units[i].sql == e.sql ==> i in s.observed
  {
    FirstInRange(s.record.units, s.observed, e, 0);
    OutdatedInRange(s.form, s.record.units, s.observed, 0);
  }

  // More units of a text than running events: the next one was not observed.
  lemma NextUnobserved(s: Session, es: seq<Event>, sql: Sql) returns (i: nat)
    requires InOrder(s, es) && Started(es, sql) < Rank(s.record.units, sql, |s.record.units|)
    ensures i < |s.record.units| && s.record.units[i].sql == sql && i !in s.observed
    ensures Rank(s.record.units, sql, i) == Started(es, sql)
  {
    i := OfRank(s.record.units, sql, |s.record.units|, Started(es, sql));
    assert UnitInOrder(s, es, i);
  }

  // The first unit of the text that saw no running event has as rank the number of such events.
  lemma StartsNext(s: Session, es: seq<Event>, e: Event)
    requires InOrder(s, es) && e.kind == STARTS && !Replaces(s, e)
    ensures Marked(s, e) <= |s.record.units|
    ensures Rank(s.record.units, e.sql, Marked(s, e)) == Started(es, e.sql)
    ensures Marked(s, e) < |s.record.units| ==> s.record.units[Marked(s, e)].sql == e.sql
  {
    var units := s.record.units;
    FirstInRange(units, s.observed, e, 0);
    var r := Started(es, e.sql);
    if r < Rank(units, e.sql, |units|) {
      var i := NextUnobserved(s, es, e.sql);
      assert Eligible(units[i], i in s.observed, e);
      var m := Marked(s, e);
      assert UnitInOrder(s, es, m);
      assert m <= i && m !in s.observed;
      RankMonotone(units, e.sql, m, i);
    } else {
      forall i | 0 <= i < |units| && units[i].sql == e.sql ensures i in s.observed {
        RankMonotone(units, e.sql, i, |units|);
        assert UnitInOrder(s, es, i);
      }
      assert Match(units, s.observed, e).None?;
    }
  }

  // An event marks one unit, and changes its text only by replacing an outdated one.
  lemma MarkShape(s: Session, e: Event)
    ensures var units, after, m := s.record.units, Mark(s, e).record.units, Marked(s, e);
            && m <= |units| && |after| == (if m < |units| then |units| else |units| + 1)
            && (forall i :: 0 <= i < |units| && i != m ==> after[i] == units[i]) && after[m].sql == e.sql
            && (m < |units| && units[m].sql != e.sql <==> Replaces(s, e))
            && after[m].status == StatusOf(e)
            && Mark(s, e).observed == (if e.kind == STARTS then s.observed + {m} else s.observed)
  {
    MarkedInRange(s, e);
    FirstInRange(s.record.units, s.observed, e, 0);
    LastInRange(s.record.units, s.observed, e, |s.record.units|);
    OutdatedInRange(s.form, s.record.units, s.observed, 0);
  }

  // The marked unit of a text stands where exactly the earlier units of the text were observed.
  lemma MarkedSplits(units: seq<Unit>, sql: Sql, m: nat, i: nat, started: nat)
    requires i <= |units| && m < |units| && units[m].sql == sql && Rank(units, sql, m) == started
    requires i < |units| && units[i].sql == sql
    ensures Rank(units, sql, i) < started + 1 <==> i <= m
  {
    if i < m { RankMonotone(units, sql, i, m); }
    if m < i { RankMonotone(units, sql, m, i); }
  }

  lemma MarkKeepsUnit(s: Session, es: seq<Event>, e: Event, i: nat)
    requires InOrder(s, es) && i < |Mark(s, e).record.units| && !Replaces(s, e)
    ensures UnitInOrder(Mark(s, e), es + [e], i)
  {
    var units, after, m := s.record.units, Mark(s, e).record.units, Marked(s, e);
    MarkShape(s, e);
    assert (es + [e])[..|es|] == es;
    RankSame(units, after, after[i].sql, i);
    if i < |units| { assert UnitInOrder(s, es, i); }
    if e.kind == STARTS && after[i].sql == e.sql {
      StartsNext(s, es, e);
      RankSame(units, after, e.sql, m);
      MarkedSplits(after, e.sql, m, i, Started(es, e.sql));
      if i < |units| && i < m { RankMonotone(units, e.sql, i, m); }
    }
  }

  lemma MarkKeepsCount(s: Session, es: seq<Event>, e: Event, sql: Sql)
    requires InOrder(s, es) && !Replaces(s, e)
    ensures Started(es + [e], sql) <= Rank(Mark(s, e).record.units, sql, |Mark(s, e).record.units|)
  {
    var units, after, m := s.record.units, Mark(s, e).record.units, Marked(s, e);
    MarkShape(s, e);
    assert (es + [e])[..|es|] == es;
    RankSame(units, after, sql, |units|);
    RankMonotone(after, sql, |units|, |after|);
    if e.kind == STARTS && sql == e.sql {
      StartsNext(s, es, e);
      RankSame(units, after, sql, m);
      RankMonotone(after, sql, m, |after|);
    }
  }

  // What a new text at position m does to ranks.
  lemma {:induction false} RankReplaced(a: seq<Unit>, b: seq<Unit>, sql: Sql, m: nat, n: nat)
    requires m < |a| == |b| && n <= |a| && forall i :: 0 <= i < |a| && i != m ==> a[i].sql == b[i].sql
    ensures Rank(b, sql, n) + (if m < n && a[m].sql == sql then 1 else 0)
            == Rank(a, sql, n) + (if m < n && b[m].sql == sql then 1 else 0)
  {
    if n > 0 { RankReplaced(a, b, sql, m, n - 1); }
  }

  // When every unit of a text was observed there are no more of them than running events.
  lemma AllObserved(s: Session, es: seq<Event>, sql: Sql)
    requires InOrder(s, es)
    requires forall i :: 0 <= i < |s.record.units| && s.record.units[i].sql == sql ==> i in s.observed
    ensures Rank(s.record.units, sql, |s.record.units|) == Started(es, sql)
  {
    if Started(es, sql) < Rank(s.record.units, sql, |s.record.units|) {
      var _ := NextUnobserved(s, es, sql);
    }
  }

  // The replaced text loses a unit behind all observed ones, the new text gains an observed one.
  lemma ReplaceKeepsUnit(s: Session, es: seq<Event>, e: Event, i: nat)
    requires InOrder(s, es) && Replaces(s, e) && i < |Mark(s, e).record.units|
    ensures UnitInOrder(Mark(s, e), es + [e], i)
  {
    var units, after, m := s.record.units, Mark(s, e).record.units, Marked(s, e);
    MarkShape(s, e);
    ReplacedUnit(s, e);
    assert (es + [e])[..|es|] == es;
    RankReplaced(units, after, after[i].sql, m, i);
    if after[i].sql == e.sql {
      AllObserved(s, es, e.sql);
      RankMonotone(units, e.sql, i, |units|);
    } else {
      assert UnitInOrder(s, es, i) && UnitInOrder(s, es, m);
      if m < i { RankMonotone(units, units[m].sql, m, i); }
    }
  }

  lemma ReplaceKeepsCount(s: Session, es: seq<Event>, e: Event, sql: Sql)
    requires InOrder(s, es) && Replaces(s, e)
    ensures Started(es + [e], sql) <= Rank(Mark(s, e).record.units, sql, |Mark(s, e).record.units|)
  {
    var units, after, m := s.record.units, Mark(s, e).record.units, Marked(s, e);
    MarkShape(s, e);
    ReplacedUnit(s, e);
    assert (es + [e])[..|es|] == es;
    RankReplaced(units, after, sql, m, |units|);
    assert UnitInOrder(s, es, m);
    RankMonotone(units, units[m].sql, m, |units|);
  }

  lemma MarkKeepsOrder(s: Session, es: seq<Event>, e: Event)
    requires InOrder(s, es)
    ensures InOrder(Mark(s, e), es + [e])
  {
    MarkShape(s, e);
    forall i: nat | i < |Mark(s, e).record.units| ensures UnitInOrder(Mark(s, e), es + [e], i) {
      if Replaces(s, e) { ReplaceKeepsUnit(s, es, e, i); } else { MarkKeepsUnit(s, es, e, i); }
    }
    forall sql ensures Started(es + [e], sql) <= Rank(Mark(s, e).record.units, sql, |Mark(s, e).record.units|) {
      if Replaces(s, e) { ReplaceKeepsCount(s, es, e, sql); } else { MarkKeepsCount(s, es, e, sql); }
    }
  }

  lemma PrepareKeepsOrder(s: Session, es: seq<Event>, e: Event)
    requires InOrder(s, es)
    ensures InOrder(Prepare(s, e), es)
  {
    InOrderKept(s, Prepare(s, e), es);
  }

  lemma BeginInOrder(sqls: seq<Sql>, form: Form)
    ensures InOrder(Begin(sqls, form), [])
  {}

  lemma {:induction false} StepsInOrder(sqls: seq<Sql>, form: Form, es: seq<Event>)
    ensures InOrder(Steps(Begin(sqls, form), es), es)
  {
    if es == [] {
      BeginInOrder(sqls, form);
    } else {
      var n := |es| - 1;
      StepsInOrder(sqls, form, es[..n]);
      NextInOrder(Begin(sqls, form), es[..n], es[n]);
      assert es[..n] + [es[n]] == es;
    }
  }

  lemma NextInOrder(s: Session, es: seq<Event>, e: Event)
    requires InOrder(Steps(s, es), es)
    ensures InOrder(Steps(s, es + [e]), es + [e])
  {
    StepKeepsOrder(Steps(s, es), es, e);
    StepsSnoc(s, es, e);
  }

  lemma StepKeepsOrder(s: Session, es: seq<Event>, e: Event)
    requires InOrder(s, es)
    ensures InOrder(Step(s, e), es + [e])
  {
    PrepareKeepsOrder(s, es, e);
    MarkKeepsOrder(Prepare(s, e), es, e);
  }

  // A running unit of this text and rank.
  ghost predicate RunsAt(s: Session, sql: Sql, rank: nat, i: nat) {
    && i < |s.record.units| && s.record.units[i].sql == sql && s.record.units[i].status == Running
    && i in s.observed && Rank(s.record.units, sql, i) == rank
  }

  lemma MarkStarts(s: Session, es: seq<Event>, e: Event)
    requires InOrder(s, es) && e.kind == STARTS && !Replaces(s, e)
    ensures RunsAt(Mark(s, e), e.sql, Started(es, e.sql), Marked(s, e))
  {
    MarkShape(s, e);
    StartsNext(s, es, e);
    RankSame(s.record.units, Mark(s, e).record.units, e.sql, Marked(s, e));
  }

  // The creating statement takes the place of the first outdated unit; nothing else changes.
  ghost predicate TakesPlace(s: Session, t: Session, e: Event, i: nat) {
    && i < |s.record.units| == |t.record.units| && Outdated(s.form, s.record.units[i], i in s.observed)
    && (forall j :: 0 <= j < i ==> !Outdated(s.form, s.record.units[j], j in s.observed))
    && (forall j :: 0 <= j < |s.record.units| && j != i ==> t.record.units[j] == s.record.units[j])
    && t.record.units[i].sql == e.sql && t.record.units[i].status == Running && t.observed == s.observed + {i}
  }

  // Whatever happened before, the k-th running event of a text marks the k-th unit with that text; units
  // beyond the plan come after all planned ones. Only the statement that creates a sequence may instead
  // replace an outdated unit, and does so exactly when every unit of its text was started already.
  lemma KthStartMarksKthUnit(sqls: seq<Sql>, form: Form, es: seq<Event>, e: Event)
    requires e.kind == STARTS
    ensures var s := Prepare(Steps(Begin(sqls, form), es), e);
            var t, i := Steps(Begin(sqls, form), es + [e]), Marked(s, e);
            && PlannedPrefix(sqls, form, t.record.units)
            && (if Replaces(s, e) then TakesPlace(s, t, e, i) else RunsAt(t, e.sql, Started(es, e.sql), i))
            && (Replaces(s, e) <==>
                  && Creates(form, e.sql)
                  && Rank(s.record.units, e.sql, |s.record.units|) == Started(es, e.sql)
                  && exists j :: 0 <= j < |s.record.units| && Outdated(form, s.record.units[j], j in s.observed))
  {
    var s := Steps(Begin(sqls, form), es);
    StepsInOrder(sqls, form, es);
    PrepareKeepsOrder(s, es, e);
    StepsSnoc(Begin(sqls, form), es, e);
    PlanStays(sqls, form, es);
    PlanStays(sqls, form, es + [e]);
    StartMarks(Prepare(s, e), es, e);
  }

  lemma StartMarks(s: Session, es: seq<Event>, e: Event)
    requires InOrder(s, es) && e.kind == STARTS
    ensures if Replaces(s, e) then TakesPlace(s, Mark(s, e), e, Marked(s, e))
            else RunsAt(Mark(s, e), e.sql, Started(es, e.sql), Marked(s, e))
    ensures Replaces(s, e) <==>
              && Creates(s.form, e.sql) && Rank(s.record.units, e.sql, |s.record.units|) == Started(es, e.sql)
              && exists j :: 0 <= j < |s.record.units| && Outdated(s.form, s.record.units[j], j in s.observed)
  {
    MarkShape(s, e);
    OutdatedInRange(s.form, s.record.units, s.observed, 0);
    FirstInRange(s.record.units, s.observed, e, 0);
    if Replaces(s, e) {
      ReplacedUnit(s, e);
      AllObserved(s, es, e.sql);
    } else {
      MarkStarts(s, es, e);
      StartsNext(s, es, e);
      if Match(s.record.units, s.observed, e).Some? {
        RankMonotone(s.record.units, e.sql, Marked(s, e), |s.record.units|);
      }
    }
  }

  lemma StepsSnoc(s: Session, es: seq<Event>, e: Event)
    ensures Steps(s, es + [e]) == Step(Steps(s, es), e)
  {
    assert (es + [e])[..|es|] == es;
  }

  // The planned statements come first, at most with another start value of a sequence.
  ghost predicate PlannedPrefix(sqls: seq<Sql>, form: Form, units: seq<Unit>) {
    && |sqls| <= |units|
    && forall i :: 0 <= i < |sqls| ==>
         units[i].sql == sqls[i] || (Creates(form, sqls[i]) && Creates(form, units[i].sql))
  }

  lemma {:induction false} PlanStays(sqls: seq<Sql>, form: Form, es: seq<Event>)
    ensures Steps(Begin(sqls, form), es).form == form
            && PlannedPrefix(sqls, form, Steps(Begin(sqls, form), es).record.units)
  {
    if es != [] {
      var n := |es| - 1;
      PlanStays(sqls, form, es[..n]);
      StepKeepsPlan(sqls, Steps(Begin(sqls, form), es[..n]), es[n]);
    }
  }

  lemma StepKeepsPlan(sqls: seq<Sql>, s: Session, e: Event)
    requires PlannedPrefix(sqls, s.form, s.record.units)
    ensures PlannedPrefix(sqls, s.form, Step(s, e).record.units)
  {
    var prepared := Prepare(s, e);
    assert PlannedPrefix(sqls, s.form, prepared.record.units);
    MarkShape(prepared, e);
    if Replaces(prepared, e) { ReplacedUnit(prepared, e); }
  }

  // Outcomes: a success retires the running unit of its text that started first, a
  // failure the one that started last.
  lemma OutcomesRetireInOrder(sqls: seq<Sql>, form: Form, es: seq<Event>, e: Event, j: nat)
    requires e.kind != STARTS && e.kind != Reused
    requires var s := Prepare(Steps(Begin(sqls, form), es), e);
             j < |s.record.units| && s.record.units[j].sql == e.sql && s.record.units[j].status == Running
    ensures var s := Prepare(Steps(Begin(sqls, form), es), e);
            var m := Marked(s, e);
            && m < |s.record.units| && s.record.units[m].sql == e.sql && s.record.units[m].status == Running
            && Step(Steps(Begin(sqls, form), es), e).record.units[m].status == e.kind.status
            && (if e.kind == Reports(Failed) then Rank(s.record.units, e.sql, j) <= Rank(s.record.units, e.sql, m)
                else Rank(s.record.units, e.sql, m) <= Rank(s.record.units, e.sql, j))
            && Rank(s.record.units, e.sql, m) < Started(es, e.sql)
  {
    var s := Prepare(Steps(Begin(sqls, form), es), e);
    StepsInOrder(sqls, form, es);
    PrepareKeepsOrder(Steps(Begin(sqls, form), es), es, e);
    FirstInRange(s.record.units, s.observed, e, 0);
    LastInRange(s.record.units, s.observed, e, |s.record.units|);
    assert Eligible(s.record.units[j], j in s.observed, e);
    var m := Marked(s, e);
    if j <= m { RankMonotone(s.record.units, e.sql, j, m); }
    if m <= j { RankMonotone(s.record.units, e.sql, m, j); }
    RunningWasObserved(sqls, form, es, e, m);
    assert UnitInOrder(s, es, m);
  }

  // An object found in place belongs to the first unit of its text that is pending or running.
  lemma ReuseMarksFirst(s: Session, e: Event)
    requires e.kind == Reused
    ensures var units, m := s.record.units, Marked(s, e);
            && (forall i :: 0 <= i < m && i < |units| && units[i].sql == e.sql ==>
                  units[i].status !in {Pending, Running})
            && (m < |units| ==> units[m].sql == e.sql && units[m].status in {Pending, Running})
            && m <= |units| && m < |Mark(s, e).record.units| && Mark(s, e).record.units[m].status == Succeeded
  {
    FirstInRange(s.record.units, s.observed, e, 0);
    forall i | 0 <= i < |s.record.units| && !Eligible(s.record.units[i], i in s.observed, e)
      ensures s.record.units[i].sql == e.sql ==> s.record.units[i].status !in {Pending, Running}
    {}
    MarkShape(s, e);
  }

  ghost predicate RunningSeen(s: Session) {
    forall i :: 0 <= i < |s.record.units| && s.record.units[i].status == Running && i !in s.observed ==>
      s.compact && s.events == 0 && i == 0
  }

  lemma {:induction false} StepsRunningSeen(sqls: seq<Sql>, form: Form, es: seq<Event>)
    ensures var s := Steps(Begin(sqls, form), es);
            RunningSeen(s) && (s.compact && s.events == 0 ==> s.observed == {})
  {
    if es != [] {
      var n := |es| - 1;
      StepsRunningSeen(sqls, form, es[..n]);
      var s := Steps(Begin(sqls, form), es[..n]);
      PlanStays(sqls, form, es[..n]);
      StepKeepsSeen(s, es[n]);
    }
  }

  lemma StepKeepsSeen(s: Session, e: Event)
    requires RunningSeen(s) && (s.compact && s.events == 0 ==> s.observed == {} && s.record.units != [])
    ensures RunningSeen(Step(s, e)) && (Step(s, e).compact ==> Step(s, e).events != 0)
  {
    var p := Prepare(s, e);
    MarkShape(p, e);
    FirstInRange(p.record.units, p.observed, e, 0);
    if FirstOfComment(s, e) { assert Eligible(p.record.units[0], false, e); }
  }

  lemma RunningWasObserved(sqls: seq<Sql>, form: Form, es: seq<Event>, e: Event, m: nat)
    requires e.kind != STARTS
    requires var s := Prepare(Steps(Begin(sqls, form), es), e);
             m < |s.record.units| && s.record.units[m].status == Running
    ensures m in Prepare(Steps(Begin(sqls, form), es), e).observed
  {
    StepsRunningSeen(sqls, form, es);
    PlanStays(sqls, form, es);
  }

  // ---------------------------------------------------------------------------
  // The final record
  // ---------------------------------------------------------------------------

  // At the end no statement is left running, a successful object has none pending
  // or unconfirmed, and an error is reported exactly when the object did not succeed
  // (an unconfirmed statement of an ordinary call aside).
  lemma FinalRecord(s: Session, err: Option<string>, preflight: bool)
    ensures var r := Close(s, err, preflight);
            && |r.record.units| == |s.record.units|
            && (forall i :: 0 <= i < |r.record.units| ==> r.record.units[i].status != Running)
            && (r.record.status == Succeeded ==>
                  r.error.None? && forall i :: 0 <= i < |r.record.units| ==>
                    r.record.units[i].status != Pending && r.record.units[i].status != Unknown)
            && (r.record.status in {Succeeded, Failed, Unknown})
            && (r.record.status == Failed ==> r.error.Some?)
            && (s.compactStarted ==> (r.record.status == Succeeded <==> r.error.None?))
  {
    var done := Close(s, err, preflight).record.units;
    if !AnyUnknown(done) {
      forall i | 0 <= i < |done| ensures done[i].status != Unknown {}
    }
  }

  // How often a call saves: before the writer, after every event that is not deferred, and at the end.
  function Saves(s: Session, es: seq<Event>): nat {
    if es == [] then 2
    else Saves(s, es[..|es| - 1]) + (if Deferred(Steps(s, es[..|es| - 1]), es[|es| - 1]) then 0 else 1)
  }

  // For a writer that announces its one comment statement, reports one outcome and
  // returns an error exactly if it did not succeed, the compact path ends with the
  // ordinary path's record, in two saves instead of four.
  lemma CompactCommentIsEquivalent(sql: Sql, outcome: Event, started: Event, err: Option<string>, preflight: bool)
    requires started.sql == sql && started.kind == STARTS && outcome.sql == sql
    requires outcome.kind in {Reports(Succeeded), Reports(Failed), Reports(Unknown)}
    requires err.None? <==> outcome.kind == Reports(Succeeded)
    ensures Close(Steps(Begin([sql], Comment), [started, outcome]), err, preflight)
            == Close(Steps(Begin([sql], Ordinary), [started, outcome]), err, preflight)
    ensures Saves(Begin([sql], Comment), [started, outcome]) == 2
    ensures Saves(Begin([sql], Ordinary), [started, outcome]) == 4
  {
    var c0, o0 := Begin([sql], Comment), Begin([sql], Ordinary);
    OneStart(sql, started);
    var c1, o1 := Step(c0, started), Step(o0, started);
    OneOutcome(c1, sql, outcome);
    OneOutcome(o1, sql, outcome);
    TwoSteps(c0, started, outcome);
    TwoSteps(o0, started, outcome);
  }

  lemma TwoSteps(s: Session, a: Event, b: Event)
    ensures Steps(s, [a, b]) == Step(Step(s, a), b)
    ensures Saves(s, [a, b]) == 2 + (if Deferred(s, a) then 0 else 1) + (if Deferred(Step(s, a), b) then 0 else 1)
  {
    assert [a, b] == [a] + [b] && [a] == [] + [a];
    StepsSnoc(s, [], a);
    StepsSnoc(s, [a], b);
    assert [a, b][..1] == [a] && [a][..0] == [];
    assert Saves(s, [a]) == Saves(s, []) + (if Deferred(Steps(s, []), a) then 0 else 1);
  }

  lemma OneStart(sql: Sql, e: Event)
    requires e.sql == sql && e.kind == STARTS
    ensures Step(Begin([sql], Comment), e)
            == Session(Record([Unit(sql, Running, e.error)], Running, ""), {0}, true, true, 1, Comment)
    ensures Step(Begin([sql], Ordinary), e)
            == Session(Record([Unit(sql, Running, e.error)], Running, ""), {0}, false, false, 0, Ordinary)
  {
    var c, o := Prepare(Begin([sql], Comment), e), Prepare(Begin([sql], Ordinary), e);
    assert FirstEligible(c.record.units, {}, e, 0) == Some(0);
    assert FirstEligible(o.record.units, {}, e, 0) == Some(0);
  }

  lemma OneOutcome(s: Session, sql: Sql, e: Event)
    requires e.sql == sql && Terminal(e.kind)
    requires |s.record.units| == 1 && s.record.units[0].sql == sql && s.record.units[0].status == Running
    requires s.compact ==> s.events == 1
    ensures Step(s, e).record == s.record.(units := [Unit(sql, e.kind.status, e.error)])
            && Step(s, e).observed == s.observed
    ensures Step(s, e).compact == s.compact && Step(s, e).compactStarted == s.compactStarted
    ensures s.compact ==> Step(s, e).events == 2
  {
    assert Eligible(s.record.units[0], 0 in s.observed, e);
    assert LastEligible(s.record.units, s.observed, e, 1) == Some(0);
  }

  // ---------------------------------------------------------------------------
  // The recorder, its sinks and its clients
  // ---------------------------------------------------------------------------

  predicate Ended(status: Status) { status == Succeeded || status == Unknown }

  // The units of native records that are recorded as succeeded or unknown.
  function EndedUnits(native: set<Id>, objects: map<Id, Record>): set<(Id, nat)> {
    set id, u: nat | id in native && id in objects && u < |objects[id].units|
      && Ended(objects[id].units[u].status) :: (id, u)
  }

  // A statement handed to the database: its unit, what was durable for its object and whether a save had
  // already failed. For native units also the status before it was announced, and every native unit that
  // had been recorded as succeeded or unknown at any moment until now.
  datatype Issue = Issued(id: Id, unit: nat, sql: Sql, durable: Option<Record>, afterFailure: bool,
                          before: Option<Status>, ended: set<(Id, nat)>)

  predicate KeepsUnits(a: seq<Unit>, b: seq<Unit>) {
    && |a| == |b|
    && forall i :: 0 <= i < |a| ==> a[i].sql == b[i].sql && (Ended(a[i].status) ==> Ended(b[i].status))
  }

  // Native records are frozen: their statements stay, and what ended stays ended.
  predicate KeepsEnded(native: set<Id>, before: map<Id, Record>, after: map<Id, Record>) {
    forall id :: id in native && id in before ==> id in after && KeepsUnits(before[id].units, after[id].units)
  }

  lemma EndedElsewhere(native: set<Id>, objects: map<Id, Record>, id: Id, r: Record)
    requires id !in native
    ensures EndedUnits(native, objects[id := r]) == EndedUnits(native, objects)
  {}

  lemma EndedKept(native: set<Id>, before: map<Id, Record>, after: map<Id, Record>)
    requires KeepsEnded(native, before, after)
    ensures EndedUnits(native, before) <= EndedUnits(native, after)
  {}

  class Recorder {
    var objects: map<Id, Record>
    var saved: map<Id, Record>    // what the last successful saves made durable
    var sinkErr: bool
    var saves: nat
    var issued: seq<Issue>
    var ended: set<(Id, nat)>     // native units ever recorded as succeeded or unknown
    const perObject: bool         // changes are saved object by object, else as full snapshots
    const native: set<Id>         // records of native objects

    // Whatever was ever recorded as ended is recorded so still.
    predicate Remembers() reads this`objects, this`ended { ended == EndedUnits(native, objects) }

    constructor (perObject: bool, native: set<Id>)
      ensures this.perObject == perObject && this.native == native && Remembers()
      ensures objects == map[] && saved == map[] && !sinkErr && saves == 0 && issued == []
    {
      this.perObject, this.native := perObject, native;
      objects, saved, sinkErr, saves, issued, ended := map[], map[], false, 0, [], {};
    }

    // Every change of the records is remembered.
    method Put(objects': map<Id, Record>)
      modifies this`objects, this`ended
      ensures objects == objects' && ended == old(ended) + EndedUnits(native, objects)
    {
      objects := objects';
      ended := ended + EndedUnits(native, objects);
    }

    // A call outside the native records.
    method PutRecord(id: Id, r: Record)
      requires id !in native && Remembers()
      modifies this`objects, this`ended
      ensures objects == old(objects)[id := r] && ended == old(ended) && Remembers()
    {
      EndedElsewhere(native, objects, id, r);
      Put(objects[id := r]);
    }

    // Both sinks are configured. A failed save is remembered for good.
    method Flush(id: Id) returns (ok: bool)
      requires id in objects
      modifies this`saved, this`sinkErr, this`saves
      ensures ok ==> id in saved && saved[id] == objects[id] && sinkErr == old(sinkErr) && saves == old(saves) + 1
      ensures !ok ==> sinkErr && saved == old(saved) && saves == old(saves)
      ensures forall other :: other != id && perObject ==>
                (other in saved <==> other in old(saved)) && (other in saved ==> saved[other] == old(saved)[other])
    {
      ok := *;
      if ok {
        saved := if perObject then saved[id := objects[id]] else objects;
        saves := saves + 1;
      } else {
        sinkErr := true;
      }
    }

    // A worker on another object fails to save, or saves, in between. Full
    // snapshots also carry this object's present record.
    method Interfere(mine: Id)
      requires mine in objects && Remembers()
      modifies this`objects, this`saved, this`sinkErr, this`ended
      ensures Remembers() && old(ended) <= ended
      ensures mine in objects && objects[mine] == old(objects[mine])
      ensures old(sinkErr) ==> sinkErr
      ensures perObject ==>
                (mine in saved <==> mine in old(saved)) && (mine in saved ==> saved[mine] == old(saved)[mine])
      ensures !perObject ==> saved == old(saved) || (mine in saved && saved[mine] == objects[mine])
    {
      var others: map<Id, Record> := *;
      if !KeepsEnded(native, objects, others) { others := objects; }
      others := others[mine := objects[mine]];
      EndedKept(native, objects, others);
      Put(others);
      var failed: bool := *;
      if failed { sinkErr := true; }
      else {
        if perObject {
          var id: Id := *;
          if id != mine && id in objects { saved := saved[id := objects[id]]; }
        } else {
          saved := objects;
        }
      }
    }

    // The database is asked to run the statement.
    method Send(id: Id, unit: nat, sql: Sql, afterFailure: bool, before: Option<Status>)
      modifies this`issued
      ensures issued == old(issued)
        + [Issued(id, unit, sql, if id in saved then Some(saved[id]) else None, afterFailure, before, ended)]
    {
      var durable := if id in saved then Some(saved[id]) else None;
      issued := issued + [Issued(id, unit, sql, durable, afterFailure, before, ended)];
    }

    // ----- captureRepairCall -----

    // The plan is recorded, durably, before the writer is called.
    method BeginCall(id: Id, sqls: seq<Sql>, form: Form) returns (ok: bool, s: Session)
      requires (form.Comment? ==> perObject) && id !in native && Remembers()
      modifies this`objects, this`saved, this`sinkErr, this`saves, this`ended
      ensures Remembers() && ended == old(ended)
      ensures old(sinkErr) ==> !ok && objects == old(objects) && saved == old(saved)
      ensures s == Begin(sqls, form)
      ensures ok ==> !sinkErr && Tracks(this, id, s) && id in saved && saved[id] == s.record && saves == old(saves) + 1
      ensures !ok ==> sinkErr
      ensures !ok && !old(sinkErr) ==> id in objects && NeverCalled(objects[id], sqls)
    {
      s := Begin(sqls, form);
      if sinkErr { return false, s; }
      PutRecord(id, s.record);
      ok := Flush(id);
      if !ok {
        // No writer was called.
        var units := if s.compact then SetFirst(s.record.units, Pending) else s.record.units;
        PutRecord(id, Record(units, Failed, "not saved"));
      }
    }

    method FindUnit(units: seq<Unit>, observed: set<nat>, e: Event) returns (unit: Option<nat>)
      ensures unit == Match(units, observed, e)
    {
      unit := None;
      for i := 0 to |units|
        invariant e.kind == Reports(Failed) ==> unit == LastEligible(units, observed, e, i)
        invariant e.kind != Reports(Failed) ==>
                  unit == None && FirstEligible(units, observed, e, 0) == FirstEligible(units, observed, e, i)
      {
        if Eligible(units[i], i in observed, e) {
          unit := Some(i);
          if e.kind != Reports(Failed) { return; }
        }
      }
    }

    method FindOutdated(form: Form, units: seq<Unit>, observed: set<nat>) returns (unit: Option<nat>)
      ensures unit == FirstOutdated(form, units, observed, 0)
    {
      for i := 0 to |units|
        invariant FirstOutdated(form, units, observed, 0) == FirstOutdated(form, units, observed, i)
      {
        if Outdated(form, units[i], i in observed) { return Some(i); }
      }
      unit := None;
    }

    // The observer: one event of the writer.
    method Observe(id: Id, s: Session, e: Event) returns (accepted: bool, t: Session, unit: nat)
      requires Tracks(this, id, s) && id !in native && Remembers()
      modifies this`objects, this`saved, this`sinkErr, this`saves, this`ended
      ensures Tracks(this, id, t) && Remembers() && ended == old(ended)
      ensures old(sinkErr) ==> sinkErr && (e.kind == STARTS ==> !accepted && t == s && saved == old(saved))
      ensures !(old(sinkErr) && e.kind == STARTS) ==> t == Step(s, e)
      ensures accepted ==> unit == Marked(Prepare(s, e), e)
      ensures accepted && Deferred(s, e) ==> saved == old(saved) && saves == old(saves) && sinkErr == old(sinkErr)
      ensures accepted && !Deferred(s, e) ==>
              id in saved && saved[id] == t.record && saves == old(saves) + 1 && sinkErr == old(sinkErr)
    {
      t, unit := s, 0;
      if e.kind == STARTS && sinkErr { return false, t, unit; }
      var p := Prepare(s, e);
      var found := FindUnit(p.record.units, p.observed, e);
      if found.None? && e.kind == STARTS && Creates(p.form, e.sql) {
        found := FindOutdated(p.form, p.record.units, p.observed);
      }
      unit := if found.Some? then found.value else |p.record.units|;
      t := Mark(p, e);
      PutRecord(id, t.record);
      if Deferred(s, e) { return true, t, unit; }
      accepted := Flush(id);
    }

    method FinishCall(id: Id, s: Session, err: Option<string>, preflight: bool) returns (error: Option<string>)
      requires Tracks(this, id, s) && id !in native && Remembers()
      modifies this`objects, this`saved, this`sinkErr, this`saves, this`ended
      ensures Remembers() && ended == old(ended)
      ensures var cause := if err.None? && old(sinkErr) then Some("not saved") else err;
              id in objects && objects[id] == Close(s, cause, preflight).record
              && (error.None? ==>
                    Close(s, cause, preflight).error.None? && !sinkErr && id in saved && saved[id] == objects[id])
      ensures old(sinkErr) ==> sinkErr && error.Some?
    {
      var cause := if err.None? && sinkErr then Some("not saved") else err;
      var r := Close(s, cause, preflight);
      FinalRecord(s, cause, preflight);
      PutRecord(id, r.record);
      var ok := Flush(id);
      error := if ok then r.error else Some("not saved");
    }

    // One event of the writer, and the statement it announces.
    method WriterStep(id: Id, s: Session) returns (t: Session, ghost seen: seq<Event>)
      requires Tracks(this, id, s) && AnnouncedComment(s, perObject, if id in saved then Some(saved[id]) else None)
      requires id !in native && Remembers()
      modifies this
      ensures Remembers() && InTime(issued, |old(issued)|, old(ended), ended)
      ensures (seen == [] && t == s) || (|seen| == 1 && t == Step(s, seen[0]))
      ensures Tracks(this, id, t) && AnnouncedComment(t, perObject, if id in saved then Some(saved[id]) else None)
      ensures old(issued) <= issued && AllProper(issued, |old(issued)|)
    {
      Interfere(id);
      var e: Event := *;
      var accepted, unit;
      seen := if sinkErr && e.kind == STARTS then [] else [e];
      accepted, t, unit := Observe(id, s, e);
      CompactMovesOn(s, e);
      if accepted && e.kind == STARTS {
        var failed := sinkErr;
        AcceptedIsRunning(s, e, if id in saved then Some(saved[id]) else None);
        Interfere(id);
        Send(id, unit, e.sql, failed, None);
      }
    }

    // A writer that runs a statement only after its running event was accepted, and
    // otherwise emits any events it likes while other workers use the same journal.
    method RunWriter(id: Id, s0: Session) returns (s: Session, ghost es: seq<Event>)
      requires Tracks(this, id, s0) && AnnouncedComment(s0, perObject, if id in saved then Some(saved[id]) else None)
      requires id !in native && Remembers()
      modifies this
      ensures Remembers() && InTime(issued, |old(issued)|, old(ended), ended)
      ensures old(issued) <= issued && AllProper(issued, |old(issued)|)
      ensures Tracks(this, id, s) && s == Steps(s0, es)
    {
      es, s := [], s0;
      var n: nat :| true;
      for k := 0 to n
        invariant Tracks(this, id, s) && s == Steps(s0, es)
        invariant Remembers() && InTime(issued, |old(issued)|, old(ended), ended)
        invariant old(issued) <= issued && AllProper(issued, |old(issued)|)
        invariant AnnouncedComment(s, perObject, if id in saved then Some(saved[id]) else None)
      {
        ghost var seen;
        s, seen := WriterStep(id, s);
        if seen != [] {
          StepsSnoc(s0, es, seen[0]);
          es := es + [seen[0]];
        }
      }
    }

    method Capture(id: Id, sqls: seq<Sql>, form: Form) returns (error: Option<string>, ghost es: seq<Event>)
      requires (form.Comment? ==> perObject) && id !in native && Remembers()
      modifies this
      ensures Remembers() && InTime(issued, |old(issued)|, old(ended), ended)
      ensures old(issued) <= issued && AllProper(issued, |old(issued)|)
      ensures old(sinkErr) ==> issued == old(issued) && sinkErr && error.Some?
      ensures error.None? ==> id in saved && Settled(saved[id])
                              && saved[id] == Close(Steps(Begin(sqls, form), es), None, false).record
    {
      es := [];
      var ok, s := BeginCall(id, sqls, form);
      if !ok { return Some("not saved"), es; }
      s, es := RunWriter(id, s);
      var err: Option<string>, preflight: bool := *, *;
      error := FinishCall(id, s, err, preflight);
    }

    // ----- executeNativeSavedUnit -----

    // The first unit with this text that did not succeed yet.
    method FindNative(units: seq<Unit>, sql: Sql) returns (unit: Option<nat>)
      ensures unit.Some? ==>
                unit.value < |units| && units[unit.value].sql == sql && units[unit.value].status != Succeeded
                             && forall j :: 0 <= j < unit.value && units[j].sql == sql ==> units[j].status == Succeeded
      ensures unit.None? ==> forall j :: 0 <= j < |units| && units[j].sql == sql ==> units[j].status == Succeeded
    {
      for i := 0 to |units|
        invariant forall j :: 0 <= j < i && units[j].sql == sql ==> units[j].status == Succeeded
      {
        if units[i].sql == sql && units[i].status != Succeeded { return Some(i); }
      }
      return None;
    }

    // Every event of a native statement belongs to its frozen unit.
    method ObserveNative(id: Id, unit: nat, status: Status, error: string) returns (accepted: bool)
      requires id in objects && unit < |objects[id].units| && Remembers()
      requires sinkErr || !Ended(objects[id].units[unit].status)
      modifies this`objects, this`saved, this`sinkErr, this`saves, this`ended
      ensures Remembers() && old(ended) <= ended
      ensures id in objects && SameSql(old(objects)[id].units, objects[id].units)
      ensures forall j :: 0 <= j < |objects[id].units| && j != unit ==>
              objects[id].units[j] == old(objects)[id].units[j]
      ensures old(sinkErr) ==> !accepted && sinkErr && objects == old(objects)
      ensures !old(sinkErr) ==>
                && objects[id].units[unit] == old(objects)[id].units[unit].(status := status, error := error)
                && objects[id].error == error
                && objects[id].status == if status in {Failed, Unknown} then status else Running
      ensures accepted ==> !sinkErr && id in saved && saved[id] == objects[id]
      ensures !accepted ==> sinkErr
    {
      if sinkErr { return false; }
      var r := objects[id];
      var u := r.units[unit].(status := status, error := error);
      var now := if status == Failed || status == Unknown then status else Running;
      var after := objects[id := Record(r.units[unit := u], now, error)];
      EndedKept(native, objects, after);
      Put(after);
      accepted := Flush(id);
    }

    // A native statement: nothing recorded as succeeded or unconfirmed is run again. The writer announces
    // the unit once, and reports one outcome; another one only while reports are refused.
    method ExecuteNative(id: Id, sql: Sql) returns (ok: bool)
      requires id in native && Remembers()
      modifies this
      ensures Remembers() && InTime(issued, |old(issued)|, old(ended), ended)
      ensures old(issued) <= issued && AllProper(issued, |old(issued)|)
      ensures old(sinkErr) ==> issued == old(issued) && sinkErr && !ok
      ensures id !in old(objects) ==> !ok && issued == old(issued)
      ensures id in old(objects) && !old(sinkErr) && NothingLeft(old(objects)[id].units, sql) ==>
                issued == old(issued) && objects == old(objects)
                && (ok <==> exists j :: 0 <= j < |objects[id].units| && objects[id].units[j].sql == sql)
      ensures forall k :: |old(issued)| <= k < |issued| ==> RunsUnit(issued[k], id, sql, old(objects))
    {
      if sinkErr { return false; }
      if id !in objects { return false; }
      var units := objects[id].units;
      var unit := FindNative(units, sql);
      if unit.None? {
        var found := FindDone(units, sql);
        return found;
      }
      if units[unit.value].status == Unknown { return false; }
      var u := unit.value;
      var announces: bool := *;   // else the writer gave up before
      if announces {
        Interfere(id);
        var before := objects[id].units[u].status;
        var accepted := ObserveNative(id, u, Running, "");
        if accepted {
          var failed := sinkErr;
          assert RunningIn(saved[id], u, sql);
          Interfere(id);
          assert objects[id].units[u].status == Running;
          Send(id, u, sql, failed, Some(before));
          ReportOutcome(id, u);
        }
      }
      ok := *;
    }

    method ReportOutcome(id: Id, u: nat)
      requires id in native && id in objects && u < |objects[id].units| && Remembers()
      requires sinkErr || !Ended(objects[id].units[u].status)
      modifies this`objects, this`saved, this`sinkErr, this`saves, this`ended
      ensures Remembers() && old(ended) <= ended && (old(sinkErr) ==> sinkErr)
    {
      var n: nat :| true;
      for k := 0 to n
        invariant id in objects && u < |objects[id].units| && Remembers()
        invariant old(ended) <= ended && (old(sinkErr) ==> sinkErr)
        invariant sinkErr || !Ended(objects[id].units[u].status)
      {
        Interfere(id);
        var status: Status, error: string := *, *;
        var accepted := ObserveNative(id, u, if status == Running then Unknown else status, error);
        if accepted { break; }
      }
    }

    method FindDone(units: seq<Unit>, sql: Sql) returns (found: bool)
      requires forall j :: 0 <= j < |units| && units[j].sql == sql ==> units[j].status == Succeeded
      ensures found <==> exists j :: 0 <= j < |units| && units[j].sql == sql
    {
      for i := 0 to |units|
        invariant forall j :: 0 <= j < i ==> units[j].sql != sql
      {
        if units[i].sql == sql && units[i].status == Succeeded { return true; }
      }
      return false;
    }

    // ----- a whole task -----

    // Any number of calls of both kinds: every statement that ever starts was durably announced first, none
    // starts in a call after a save has failed, and no native unit starts once it was recorded, at any moment
    // before, as succeeded or unknown.
    method Task(calls: nat)
      requires Remembers()
      modifies this
      ensures Remembers() && InTime(issued, |old(issued)|, old(ended), ended)
      ensures old(issued) <= issued && AllProper(issued, |old(issued)|)
      ensures old(sinkErr) ==> issued == old(issued) && sinkErr
      ensures forall k :: |old(issued)| <= k < |issued| && issued[k].before.Some? ==>
                (issued[k].id, issued[k].unit) !in EndedUnits(native, old(objects))
    {
      for k := 0 to calls
        invariant Remembers() && InTime(issued, |old(issued)|, old(ended), ended)
        invariant old(issued) <= issued && AllProper(issued, |old(issued)|)
        invariant old(sinkErr) ==> issued == old(issued) && sinkErr
      {
        var id: Id := *;
        if id in native {
          var sql: Sql := *;
          var _ := ExecuteNative(id, sql);
        } else {
          var sqls: seq<Sql>, form: Form := *, *;
          var _, _ := Capture(id, sqls, if form.Comment? && !perObject then Ordinary else form);
        }
      }
    }
  }

  // The plan could not be saved, so nothing of it ran.
  ghost predicate NeverCalled(r: Record, sqls: seq<Sql>) {
    && r.status == Failed && |r.units| == |sqls|
    && forall i :: 0 <= i < |sqls| ==> r.units[i].sql == sqls[i] && r.units[i].status == Pending
  }

  // Every unit with this text succeeded already.
  ghost predicate NothingLeft(units: seq<Unit>, sql: Sql) {
    forall j :: 0 <= j < |units| && units[j].sql == sql ==> units[j].status == Succeeded
  }

  // The statement belongs to the first unit of its text that had not succeeded.
  ghost predicate RunsUnit(x: Issue, id: Id, sql: Sql, objects: map<Id, Record>) {
    && x.id == id && x.sql == sql && id in objects && x.unit < |objects[id].units|
    && objects[id].units[x.unit].sql == sql
    && x.before == Some(objects[id].units[x.unit].status)
    && forall j :: 0 <= j < x.unit && objects[id].units[j].sql == sql ==> objects[id].units[j].status == Succeeded
  }

  // The recorder holds the session's record.
  predicate Tracks(r: Recorder, id: Id, s: Session)
    reads r`objects
  {
    id in r.objects && r.objects[id] == s.record
  }

  // Until its first event, a comment on the two-save path is durably announced by the initial save.
  ghost predicate AnnouncedComment(s: Session, perObject: bool, durable: Option<Record>) {
    s.compact && s.events == 0 ==>
      && perObject && durable.Some? && durable.value.units == s.record.units
      && |s.record.units| == 1 && s.record.units[0].status == Running && s.observed == {}
  }

  lemma CompactMovesOn(s: Session, e: Event)
    ensures Step(s, e).compact ==> Step(s, e).events != 0
  {}

  // No native statement starts after a moment at which its unit was recorded as succeeded or unknown.
  ghost predicate NativeFresh(x: Issue) {
    x.before.Some? ==> !Ended(x.before.value) && (x.id, x.unit) !in x.ended
  }

  // The ended units that statements carry only grow, from those before the first to those after the last.
  ghost predicate InTime(issued: seq<Issue>, from: nat, first: set<(Id, nat)>, last: set<(Id, nat)>) {
    && first <= last
    && (forall k :: from <= k < |issued| ==> first <= issued[k].ended <= last)
    && (forall j, k :: from <= j < k < |issued| ==> issued[j].ended <= issued[k].ended)
  }

  // Nothing is left open in a record saved as successful.
  ghost predicate Settled(r: Record) {
    && (forall i :: 0 <= i < |r.units| ==> r.units[i].status != Running && r.units[i].status != Pending)
    && (r.status == Succeeded ==> forall i :: 0 <= i < |r.units| ==> r.units[i].status != Unknown)
  }

  // An accepted running event leaves a durable record in which its statement runs.
  lemma AcceptedIsRunning(s: Session, e: Event, durable: Option<Record>)
    requires e.kind == STARTS
    requires Deferred(s, e) ==> durable.Some? && |durable.value.units| == 1 && durable.value.units[0].sql == e.sql
                                && durable.value.units[0].status == Running && s.observed == {}
    requires !Deferred(s, e) ==> durable == Some(Step(s, e).record)
    ensures RunningIn(durable.value, Marked(Prepare(s, e), e), e.sql) || (Deferred(s, e) && |s.record.units| != 1)
  {
    MarkShape(Prepare(s, e), e);
    if Deferred(s, e) && |s.record.units| == 1 { assert Eligible(s.record.units[0], 0 in s.observed, e); }
  }

  ghost predicate RunningIn(r: Record, unit: nat, sql: Sql) {
    unit < |r.units| && r.units[unit].sql == sql && r.units[unit].status == Running
  }

  // The last durable record shows this very unit running, and no save had failed before.
  ghost predicate WriteAhead(x: Issue) {
    x.durable.Some? && RunningIn(x.durable.value, x.unit, x.sql) && !x.afterFailure
  }

  ghost predicate AllProper(issued: seq<Issue>, from: nat) {
    forall k :: from <= k < |issued| ==> WriteAhead(issued[k]) && NativeFresh(issued[k])
  }
}
