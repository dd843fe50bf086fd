// What the closing record says of every statement, told from the events alone (datamigrate/repair_manifest.go).
module JournalOutcome {
  import opened Wrappers
  import opened Journal

  // The event that marked a unit last.
  function LastMark(s: Session, es: seq<Event>, i: nat): Option<Event> {
    if es == [] then None
    else
      var before, e := es[..|es| - 1], es[|es| - 1];
      if Marked(Prepare(Steps(s, before), e), e) == i then Some(e) else LastMark(s, before, i)
  }

  // What an event says of its statement. A status still to come says nothing.
  datatype Said = Nothing | Started | Ends(status: Status)

  function Says(e: Option<Event>): Said {
    if e.None? then Nothing
    else match e.value.kind
      case Reused => Ends(Succeeded)
      case Reports(Pending) => Nothing
      case Reports(Running) => Started
      case Reports(status) => Ends(status)
  }

  // The unit as the events left it: the comment of the two-save path is announced before its first event.
  ghost predicate Left(s: Session, sqls: seq<Sql>, form: Form, es: seq<Event>, i: nat)
    requires i < |s.record.units|
  {
    var u, last := s.record.units[i], LastMark(Begin(sqls, form), es, i);
    && (if last.None? then i < |sqls| && u.sql == sqls[i] && u.error == ""
        else u.sql == last.value.sql && u.error == last.value.error)
    && match Says(last)
       case Nothing => u.status == if s.compact && s.events == 0 then Running else Pending
       case Started => u.status == Running && i in s.observed
       case Ends(status) => u.status == status
  }

  ghost predicate AllLeft(s: Session, sqls: seq<Sql>, form: Form, es: seq<Event>) {
    && (forall i: nat :: i < |s.record.units| ==> Left(s, sqls, form, es, i))
    && (forall i: nat :: LastMark(Begin(sqls, form), es, i).Some? ==> i < |s.record.units|)
    && (s.compact && s.events == 0 ==> es == [])
    && (s.compact ==> |s.record.units| == 1 && s.compactStarted)
    && (s.compact && s.events == 0 ==> s.observed == {})
    && (s.compact && s.events <= 1 ==> s.record.units[0].status == Running)
    && (s.compactStarted <==> form.Comment? && |sqls| == 1)
  }

  lemma BeginLeft(sqls: seq<Sql>, form: Form)
    ensures AllLeft(Begin(sqls, form), sqls, form, [])
  {}

  // Falling back to the ordinary path changes only the announcement of a comment that saw no event.
  lemma PrepareUnits(s: Session, e: Event)
    ensures var p := Prepare(s, e);
            && |p.record.units| == |s.record.units| && p.observed == s.observed && p.form == s.form
            && p.compactStarted == s.compactStarted && (p.compact ==> s.compact)
            && (p.compact ==> p.events != 0 && Deferred(s, e))
            && forall i :: 0 <= i < |s.record.units| ==>
                 p.record.units[i] == if s.compact && s.events == 0 && !p.compact && i == 0
                                      then s.record.units[i].(status := Pending) else s.record.units[i]
  {}

  lemma MarkedUnit(s: Session, e: Event)
    ensures Marked(s, e) < |Mark(s, e).record.units|
    ensures Mark(s, e).record.units[Marked(s, e)] == Unit(e.sql, StatusOf(e), e.error)
    ensures Mark(s, e).compact == s.compact && Mark(s, e).events == s.events
            && Mark(s, e).compactStarted == s.compactStarted
  {
    MarkedInRange(s, e);
  }

  lemma DeferredMarksFirst(s: Session, e: Event)
    requires Deferred(s, e) && |s.record.units| == 1 && s.record.units[0].status == Running
    requires s.events == 0 ==> s.observed == {}
    ensures Marked(Prepare(s, e), e) == 0
  {
    var p := Prepare(s, e);
    assert Eligible(p.record.units[0], 0 in p.observed, e);
    FirstInRange(p.record.units, p.observed, e, 0);
    LastInRange(p.record.units, p.observed, e, 1);
  }

  lemma LeftKept(s: Session, sqls: seq<Sql>, form: Form, es: seq<Event>, e: Event, i: nat)
    requires s == Steps(Begin(sqls, form), es) && AllLeft(s, sqls, form, es)
    requires i < |Step(s, e).record.units| && i != Marked(Prepare(s, e), e)
    requires !Step(s, e).compact
    ensures Left(Step(s, e), sqls, form, es + [e], i)
  {
    var p := Prepare(s, e);
    PrepareUnits(s, e);
    MarkShape(p, e);
    MarkedUnit(p, e);
    assert (es + [e])[..|es|] == es;
    assert Left(s, sqls, form, es, i);
  }

  lemma LeftMarked(s: Session, sqls: seq<Sql>, form: Form, es: seq<Event>, e: Event)
    requires s == Steps(Begin(sqls, form), es) && AllLeft(s, sqls, form, es)
    ensures var m := Marked(Prepare(s, e), e);
            m < |Step(s, e).record.units| && Left(Step(s, e), sqls, form, es + [e], m)
  {
    var p := Prepare(s, e);
    PrepareUnits(s, e);
    MarkShape(p, e);
    MarkedUnit(p, e);
    assert (es + [e])[..|es|] == es;
  }

  lemma StepLeft(s: Session, sqls: seq<Sql>, form: Form, es: seq<Event>, e: Event)
    requires s == Steps(Begin(sqls, form), es) && AllLeft(s, sqls, form, es)
    ensures AllLeft(Step(s, e), sqls, form, es + [e])
  {
    var p, m := Prepare(s, e), Marked(Prepare(s, e), e);
    PrepareUnits(s, e);
    MarkShape(p, e);
    MarkedUnit(p, e);
    assert (es + [e])[..|es|] == es;
    LeftMarked(s, sqls, form, es, e);
    if p.compact { DeferredMarksFirst(s, e); }
    forall i: nat | i < |Step(s, e).record.units| ensures Left(Step(s, e), sqls, form, es + [e], i) {
      if i != m { LeftKept(s, sqls, form, es, e, i); }
    }
    forall i: nat | LastMark(Begin(sqls, form), es + [e], i).Some? ensures i < |Step(s, e).record.units| {
      if i != m { assert LastMark(Begin(sqls, form), es, i).Some?; }
    }
  }

  lemma {:induction false} StepsLeft(sqls: seq<Sql>, form: Form, es: seq<Event>)
    ensures AllLeft(Steps(Begin(sqls, form), es), sqls, form, es)
  {
    if es == [] {
      BeginLeft(sqls, form);
    } else {
      var before, e := es[..|es| - 1], es[|es| - 1];
      StepsLeft(sqls, form, before);
      StepLeft(Steps(Begin(sqls, form), before), sqls, form, before, e);
      StepsSnoc(Begin(sqls, form), before, e);
      assert before + [e] == es;
    }
  }

  // ---------------------------------------------------------------------------
  // The closing record
  // ---------------------------------------------------------------------------

  // A running event was accepted for some statement.
  ghost predicate AnyStarted(es: seq<Event>) { exists k :: 0 <= k < |es| && es[k].kind == STARTS }

  lemma {:induction false} StartedObserved(sqls: seq<Sql>, form: Form, es: seq<Event>)
    ensures Steps(Begin(sqls, form), es).observed != {} <==> AnyStarted(es)
  {
    if es != [] {
      var before, e := es[..|es| - 1], es[|es| - 1];
      StartedObserved(sqls, form, before);
      MarkShape(Prepare(Steps(Begin(sqls, form), before), e), e);
      PrepareUnits(Steps(Begin(sqls, form), before), e);
      assert forall k :: 0 <= k < |before| ==> before[k] == es[k];
    }
  }

  // An error of the call itself, or a comment whose failure the writer did not return.
  ghost predicate CallFailed(sqls: seq<Sql>, form: Form, es: seq<Event>, err: Option<string>) {
    err.Some? || (form.Comment? && |sqls| == 1 && FailureSaid(sqls, form, es))
  }

  ghost predicate FailureSaid(sqls: seq<Sql>, form: Form, es: seq<Event>) {
    exists i: nat ::
      var said := Says(LastMark(Begin(sqls, form), es, i)); said == Ends(Failed) || said == Ends(RolledBack)
  }

  // What the closing record says of a unit:
  //  - a reported outcome is kept, and a statement left running is unknown;
  //  - one that nothing was said of succeeded if the call did; if the call failed it is unknown when no statement
  //    was seen to start and the error does not rule that out, else it is still pending;
  //  - a single comment that other events displaced is unknown.
  function FinalOf(said: Said, displaced: bool, failed: bool, started: bool, preflight: bool): Status {
    match said
    case Ends(status) => status
    case Started => Unknown
    case Nothing =>
      if displaced then Unknown
      else if !failed then Succeeded
      else if started || preflight then Pending
      else Unknown
  }

  // Some running event of the call was for this unit.
  predicate EverStarted(s: Session, es: seq<Event>, i: nat) {
    es != []
    && (var before, e := es[..|es| - 1], es[|es| - 1];
        (e.kind == STARTS && Marked(Prepare(Steps(s, before), e), e) == i) || EverStarted(s, before, i))
  }

  lemma {:induction false} ObservedIsStarted(sqls: seq<Sql>, form: Form, es: seq<Event>, i: nat)
    ensures i in Steps(Begin(sqls, form), es).observed <==> EverStarted(Begin(sqls, form), es, i)
  {
    if es != [] {
      var before, e := es[..|es| - 1], es[|es| - 1];
      ObservedIsStarted(sqls, form, before, i);
      MarkShape(Prepare(Steps(Begin(sqls, form), before), e), e);
      PrepareUnits(Steps(Begin(sqls, form), before), e);
    }
  }

  // A single comment of which nothing was heard although other statements were announced.
  ghost predicate Displaced(sqls: seq<Sql>, form: Form, es: seq<Event>, i: nat) {
    form.Comment? && |sqls| == 1 && i == 0 && es != [] && !EverStarted(Begin(sqls, form), es, i)
  }

  lemma ReopenedUnit(s: Session, sqls: seq<Sql>, form: Form, es: seq<Event>, i: nat)
    requires s == Steps(Begin(sqls, form), es) && AllLeft(s, sqls, form, es) && i < |s.record.units|
    ensures var said := Says(LastMark(Begin(sqls, form), es, i));
            && |Reopened(s)| == |s.record.units| && Reopened(s)[i].sql == s.record.units[i].sql
            && Reopened(s)[i].error == s.record.units[i].error
            && Reopened(s)[i].status == match said
               case Ends(status) => status
               case Started => Running
               case Nothing => if Displaced(sqls, form, es, i) then Unknown else Pending
  {
    assert Left(s, sqls, form, es, i);
    ObservedIsStarted(sqls, form, es, i);
  }

  lemma BrokenExactly(s: Session, sqls: seq<Sql>, form: Form, es: seq<Event>)
    requires s == Steps(Begin(sqls, form), es) && AllLeft(s, sqls, form, es)
    ensures Broken(Reopened(s)) <==> FailureSaid(sqls, form, es)
  {
    if Broken(Reopened(s)) {
      var i :| 0 <= i < |Reopened(s)| && (Reopened(s)[i].status == Failed || Reopened(s)[i].status == RolledBack);
      ReopenedUnit(s, sqls, form, es, i);
    }
    if FailureSaid(sqls, form, es) {
      var i: nat :| var said := Says(LastMark(Begin(sqls, form), es, i));
                    said == Ends(Failed) || said == Ends(RolledBack);
      ReopenedUnit(s, sqls, form, es, i);
    }
  }

  // What closing does to the units, and when the call counts as failed.
  lemma Closes(s: Session, err: Option<string>, preflight: bool, failed: bool)
    requires failed <==> err.Some? || (s.compactStarted && Broken(Reopened(s)))
    ensures var r := Close(s, err, preflight);
            && r.record.units == FinalUnits(Reopened(s), failed, s.observed == {} && !(preflight && err.Some?))
            && r.record.status == (if AnyUnknown(r.record.units) then Unknown else if failed then Failed else Succeeded)
            && (r.error.Some? <==> failed || (s.compactStarted && AnyUnknown(r.record.units)))
            && (err.Some? ==> r.error == err) && r.record.error == if r.error.Some? then r.error.value else ""
  {}

  lemma FailedExactly(sqls: seq<Sql>, form: Form, es: seq<Event>, err: Option<string>)
    ensures var s := Steps(Begin(sqls, form), es);
            CallFailed(sqls, form, es, err) <==> err.Some? || (s.compactStarted && Broken(Reopened(s)))
  {
    StepsLeft(sqls, form, es);
    BrokenExactly(Steps(Begin(sqls, form), es), sqls, form, es);
  }

  // The closing record, read off the events.
  lemma FinalUnitExactly(sqls: seq<Sql>, form: Form, es: seq<Event>, err: Option<string>, preflight: bool, i: nat)
    requires i < |Steps(Begin(sqls, form), es).record.units|
    ensures var r, last := Close(Steps(Begin(sqls, form), es), err, preflight), LastMark(Begin(sqls, form), es, i);
            && |r.record.units| == |Steps(Begin(sqls, form), es).record.units|
            && r.record.units[i].status == FinalOf(Says(last), Displaced(sqls, form, es, i),
                 CallFailed(sqls, form, es, err), AnyStarted(es), preflight && err.Some?)
            && (if last.None? then i < |sqls| && r.record.units[i].sql == sqls[i]
                else r.record.units[i].sql == last.value.sql && r.record.units[i].error == last.value.error)
  {
    var s := Steps(Begin(sqls, form), es);
    StepsLeft(sqls, form, es);
    FailedExactly(sqls, form, es, err);
    Closes(s, err, preflight, CallFailed(sqls, form, es, err));
    UnitCloses(s, sqls, form, es, CallFailed(sqls, form, es, err), preflight && err.Some?, i);
  }

  lemma UnitCloses(s: Session, sqls: seq<Sql>, form: Form, es: seq<Event>, failed: bool, preflight: bool, i: nat)
    requires s == Steps(Begin(sqls, form), es) && AllLeft(s, sqls, form, es) && i < |s.record.units|
    ensures var units, last := FinalUnits(Reopened(s), failed, s.observed == {} && !preflight),
                               LastMark(Begin(sqls, form), es, i);
            && |units| == |s.record.units|
            && units[i].status
               == FinalOf(Says(last), Displaced(sqls, form, es, i), failed, AnyStarted(es), preflight)
            && (if last.None? then i < |sqls| && units[i].sql == sqls[i]
                else units[i].sql == last.value.sql && units[i].error == last.value.error)
  {
    assert Left(s, sqls, form, es, i);
    ReopenedUnit(s, sqls, form, es, i);
    StartedObserved(sqls, form, es);
  }

  // What follows for a statement: what was reported stays, and success is never made up.
  lemma OutcomesAreHonest(sqls: seq<Sql>, form: Form, es: seq<Event>, err: Option<string>, preflight: bool, i: nat)
    requires i < |Steps(Begin(sqls, form), es).record.units|
    ensures var r := Close(Steps(Begin(sqls, form), es), err, preflight).record;
            var said, status := Says(LastMark(Begin(sqls, form), es, i)), r.units[i].status;
            && i < |r.units| && (said.Ends? ==> status == said.status)
            && (said.Started? ==> status == Unknown && r.status == Unknown)
            && (status == Succeeded ==> said == Ends(Succeeded) || (said == Nothing && err.None?))
  {
    FinalUnitExactly(sqls, form, es, err, preflight, i);
    FinalObjectExactly(sqls, form, es, err, preflight);
  }

  // The object is unknown if one of its statements is, else failed if the call was, else successful.
  lemma FinalObjectExactly(sqls: seq<Sql>, form: Form, es: seq<Event>, err: Option<string>, preflight: bool)
    ensures var r, failed := Close(Steps(Begin(sqls, form), es), err, preflight), CallFailed(sqls, form, es, err);
            var unsure := exists i :: 0 <= i < |r.record.units| && r.record.units[i].status == Unknown;
            && r.record.status == (if unsure then Unknown else if failed then Failed else Succeeded)
            && (r.error.Some? <==> failed || (unsure && form.Comment? && |sqls| == 1))
            && (err.Some? ==> r.error == err)
            && r.record.error == if r.error.Some? then r.error.value else ""
  {
    StepsLeft(sqls, form, es);
    FailedExactly(sqls, form, es, err);
    Closes(Steps(Begin(sqls, form), es), err, preflight, CallFailed(sqls, form, es, err));
  }
}
