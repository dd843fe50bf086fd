// Executing the units of one phase of a native migration (datamigrate/dameng_native.go):
// units are retried in rounds as long as a round makes progress, and what never
// succeeds withholds everything that depends on it.
module NativePhase {
  import opened NativeScope

  datatype Work = Work(id: Id, sql: string)

  datatype Outcome = Done | Failed | Fatal

  // One call of the writer, with the failures known at that moment.
  datatype Attempt = Attempt(work: Work, outcome: Outcome, failed: set<Id>)

  function ActualPhase(o: Object, u: Unit): string {
    if u.phase != "" then u.phase else if o.rank < 3 then "before_data" else "after_data"
  }

  function UnitsOf(o: Object, units: seq<Unit>, phase: string): seq<Work> {
    if units == [] then []
    else UnitsOf(o, units[..|units| - 1], phase) +
         (if ActualPhase(o, units[|units| - 1]) == phase then [Work(o.id, units[|units| - 1].sql)] else [])
  }

  // The units of a phase, in plan order. Managed objects are created by their owner.
  function Plan(objects: seq<Object>, phase: string): seq<Work> {
    if objects == [] then []
    else Plan(objects[..|objects| - 1], phase) +
         (var o := objects[|objects| - 1]; if o.managed then [] else UnitsOf(o, o.units, phase))
  }

  function Triangle(n: nat): nat { if n == 0 then 0 else n + Triangle(n - 1) }

  lemma {:induction false} TriangleGrows(m: nat, n: nat)
    requires m <= n
    ensures Triangle(m) <= Triangle(n)
    decreases n - m
  {
    if m < n { TriangleGrows(m, n - 1); }
  }

  // The writer and the task context: any call may succeed, fail, or end the task.
  class World {
    var log: seq<Attempt>
    var cancelled: bool

    constructor ()
      ensures log == [] && !cancelled
    {
      log, cancelled := [], false;
    }

    method Cancelled() returns (yes: bool)
      modifies this`cancelled
      ensures yes == cancelled && (old(cancelled) ==> cancelled)
    {
      yes := *;
      yes := yes || cancelled;
      cancelled := yes;
    }

    method Execute(work: Work, failed: set<Id>) returns (outcome: Outcome)
      modifies this`log
      ensures log == old(log) + [Attempt(work, outcome, failed)]
    {
      outcome := *;
      log := log + [Attempt(work, outcome, failed)];
    }
  }

  // Nothing was attempted for an object that was withheld, or whose prerequisites were.
  ghost predicate Guarded(objects: seq<Object>, initial: set<Id>, log: seq<Attempt>, from: nat) {
    forall k :: from <= k < |log| ==>
      log[k].work.id !in log[k].failed && initial <= log[k].failed && Propagated(objects, log[k].failed)
  }

  method PlanPhase(objects: seq<Object>, phase: string) returns (pending: seq<Work>)
    ensures pending == Plan(objects, phase)
  {
    pending := [];
    for i := 0 to |objects|
      invariant pending == Plan(objects[..i], phase)
    {
      assert objects[..i + 1][..i] == objects[..i];
      var o := objects[i];
      if !o.managed {
        ghost var before := pending;
        for j := 0 to |o.units|
          invariant pending == before + UnitsOf(o, o.units[..j], phase)
        {
          assert o.units[..j + 1][..j] == o.units[..j];
          var actual := o.units[j].phase;
          if actual == "" {
            actual := "after_data";
            if o.rank < 3 { actual := "before_data"; }
          }
          if actual == phase { pending := pending + [Work(o.id, o.units[j].sql)]; }
        }
        assert o.units[..|o.units|] == o.units;
      }
    }
    assert objects[..|objects|] == objects;
  }

  // ---- One round ----

  // The pending units whose objects are not withheld.
  function Todo(pending: seq<Work>, failed: set<Id>): seq<Work> {
    if pending == [] then []
    else Todo(pending[..|pending| - 1], failed)
         + (if pending[|pending| - 1].id in failed then [] else [pending[|pending| - 1]])
  }

  function Works(round: seq<Attempt>): seq<Work> {
    seq(|round|, k requires 0 <= k < |round| => round[k].work)
  }

  // What a round leaves for the next one.
  function Left(round: seq<Attempt>): seq<Work> {
    if round == [] then []
    else Left(round[..|round| - 1])
         + (if round[|round| - 1].outcome == Failed then [round[|round| - 1].work] else [])
  }

  ghost predicate HasDone(round: seq<Attempt>) { exists k :: 0 <= k < |round| && round[k].outcome == Done }

  // Each unit that may be run is attempted once, in order, and nothing ends the task.
  ghost predicate WholeRound(round: seq<Attempt>, pending: seq<Work>, failed: set<Id>) {
    && Works(round) == Todo(pending, failed)
    && forall k :: 0 <= k < |round| ==> round[k].outcome != Fatal && round[k].failed == failed
  }

  ghost predicate EndsTask(w: World)
    reads w
  {
    w.cancelled || (w.log != [] && w.log[|w.log| - 1].outcome == Fatal)
  }

  lemma RoundSkips(round: seq<Attempt>, pending: seq<Work>, k: nat, failed: set<Id>)
    requires k < |pending| && WholeRound(round, pending[..k], failed) && pending[k].id in failed
    ensures WholeRound(round, pending[..k + 1], failed)
  {
    assert pending[..k + 1][..k] == pending[..k];
  }

  lemma RoundAttempts(round: seq<Attempt>, pending: seq<Work>, k: nat, failed: set<Id>, a: Attempt)
    requires k < |pending| && WholeRound(round, pending[..k], failed) && pending[k].id !in failed
    requires a.work == pending[k] && a.outcome != Fatal && a.failed == failed
    ensures WholeRound(round + [a], pending[..k + 1], failed)
    ensures Left(round + [a]) == Left(round) + (if a.outcome == Failed then [a.work] else [])
    ensures HasDone(round + [a]) <==> HasDone(round) || a.outcome == Done
  {
    assert pending[..k + 1][..k] == pending[..k];
    assert (round + [a])[..|round|] == round;
    assert Works(round + [a]) == Works(round) + [a.work];
    assert (round + [a])[|round|] == a;
    assert forall j :: 0 <= j < |round| ==> (round + [a])[j] == round[j];
  }

  // From a closed set nothing spreads any further.
  lemma ClosedStays(objects: seq<Object>, initial: set<Id>, first: set<Id>, second: set<Id>)
    requires LeastPropagated(objects, initial, first) || first == initial
    requires LeastPropagated(objects, first, second)
    ensures LeastPropagated(objects, initial, second)
    ensures LeastPropagated(objects, initial, first) ==> second == first
  {}

  lemma GuardedNext(objects: seq<Object>, initial: set<Id>, log: seq<Attempt>, from: nat, a: Attempt)
    requires from <= |log| && Guarded(objects, initial, log, from)
    requires a.work.id !in a.failed && initial <= a.failed && Propagated(objects, a.failed)
    ensures Guarded(objects, initial, log + [a], from)
  {
    assert forall k :: 0 <= k < |log| ==> (log + [a])[k] == log[k];
  }

  lemma GuardedMore(objects: seq<Object>, initial: set<Id>, start: set<Id>, before: seq<Attempt>, log: seq<Attempt>,
                    from: nat)
    requires from <= |before| && before <= log && initial <= start
    requires Guarded(objects, initial, before, from) && Guarded(objects, start, log, |before|)
    ensures Guarded(objects, initial, log, from)
  {
    assert forall k :: 0 <= k < |before| ==> log[k] == before[k];
  }

  // How far the withheld set has come after some units.
  ghost predicate Reached(objects: seq<Object>, initial: set<Id>, withheld: set<Id>, some: bool) {
    if some then LeastPropagated(objects, initial, withheld) else withheld == initial
  }

  // The first round may withhold more; the later ones do not.
  lemma ReachedNext(objects: seq<Object>, initial: set<Id>, before: set<Id>, withheld: set<Id>, some: bool)
    requires Reached(objects, initial, before, some) && LeastPropagated(objects, before, withheld)
    ensures Reached(objects, initial, withheld, true) && (some ==> withheld == before)
    ensures initial <= withheld && Propagated(objects, withheld)
  {
    ClosedStays(objects, initial, before, withheld);
  }

  // One unit's turn: failures spread first, and the unit is attempted unless its object is withheld.
  method Turn(p: Preflight, w: World, item: Work) returns (tried: bool, outcome: Outcome)
    modifies p`states, w`log
    ensures Extends(old(p.states), p.states) && LeastPropagated(p.objects, old(p.states).Keys, p.states.Keys)
    ensures tried <==> item.id !in p.states
    ensures w.log == old(w.log) + if tried then [Attempt(item, outcome, p.states.Keys)] else []
  {
    p.Propagate();
    tried, outcome := item.id !in p.states, Done;
    if tried {
      outcome := w.Execute(item, p.states.Keys);
      assert p.states - {item.id} == p.states;
      if outcome.Done? { p.states := p.states - {item.id}; }
    }
  }

  // What is known in the middle of a round.
  ghost predicate Midway(objects: seq<Object>, initial: set<Id>, failed: set<Id>, log0: seq<Attempt>, log: seq<Attempt>,
                         pending: seq<Work>, k: nat, round: seq<Attempt>, next: seq<Work>, progress: bool) {
    && k <= |pending| && log == log0 + round && |round| <= k && Guarded(objects, initial, log, |log0|)
    && |next| <= k && (progress ==> |next| < k) && Reached(objects, initial, failed, k > 0)
    && WholeRound(round, pending[..k], failed) && next == Left(round) && (progress <==> HasDone(round))
  }

  lemma MidwayStill(objects: seq<Object>, initial: set<Id>, before: set<Id>, failed: set<Id>, log0: seq<Attempt>,
                    log: seq<Attempt>, pending: seq<Work>, k: nat, round: seq<Attempt>, next: seq<Work>, progress: bool)
    requires Midway(objects, initial, before, log0, log, pending, k, round, next, progress) && k < |pending|
    requires LeastPropagated(objects, before, failed)
    ensures Reached(objects, initial, failed, true) && initial <= failed && Propagated(objects, failed)
    ensures WholeRound(round, pending[..k], failed)
  {
    ReachedNext(objects, initial, before, failed, k > 0);
    StillWhole(round, pending, k, before, failed);
  }

  lemma MidwaySkips(objects: seq<Object>, initial: set<Id>, before: set<Id>, failed: set<Id>, log0: seq<Attempt>,
                    log: seq<Attempt>, pending: seq<Work>, k: nat, round: seq<Attempt>, next: seq<Work>, progress: bool)
    requires Midway(objects, initial, before, log0, log, pending, k, round, next, progress) && k < |pending|
    requires LeastPropagated(objects, before, failed) && pending[k].id in failed
    ensures Midway(objects, initial, failed, log0, log, pending, k + 1, round, next, progress)
  {
    MidwayStill(objects, initial, before, failed, log0, log, pending, k, round, next, progress);
    RoundSkips(round, pending, k, failed);
  }

  lemma MidwayGuarded(objects: seq<Object>, initial: set<Id>, before: set<Id>, failed: set<Id>, log0: seq<Attempt>,
                      log: seq<Attempt>, pending: seq<Work>, k: nat, round: seq<Attempt>, next: seq<Work>,
                      progress: bool, a: Attempt)
    requires Midway(objects, initial, before, log0, log, pending, k, round, next, progress) && k < |pending|
    requires LeastPropagated(objects, before, failed) && a.work == pending[k] && a.work.id !in failed
    requires a.failed == failed
    ensures Guarded(objects, initial, log + [a], |log0|) && log + [a] == log0 + (round + [a])
  {
    MidwayStill(objects, initial, before, failed, log0, log, pending, k, round, next, progress);
    GuardedNext(objects, initial, log, |log0|, a);
  }

  lemma MidwayAttempts(objects: seq<Object>, initial: set<Id>, before: set<Id>, failed: set<Id>, log0: seq<Attempt>,
                       log: seq<Attempt>, pending: seq<Work>, k: nat, round: seq<Attempt>, next: seq<Work>,
                       progress: bool, a: Attempt)
    requires Midway(objects, initial, before, log0, log, pending, k, round, next, progress) && k < |pending|
    requires LeastPropagated(objects, before, failed) && a.work == pending[k] && a.work.id !in failed
    requires a.failed == failed && !a.outcome.Fatal?
    ensures Midway(objects, initial, failed, log0, log + [a], pending, k + 1, round + [a],
                   if a.outcome.Failed? then next + [a.work] else next, progress || a.outcome.Done?)
  {
    MidwayGuarded(objects, initial, before, failed, log0, log, pending, k, round, next, progress, a);
    MidwayStill(objects, initial, before, failed, log0, log, pending, k, round, next, progress);
    RoundAttempts(round, pending, k, failed, a);
  }

  lemma MidwayEnds(objects: seq<Object>, initial: set<Id>, failed: set<Id>, log0: seq<Attempt>, log: seq<Attempt>,
                   pending: seq<Work>, round: seq<Attempt>, next: seq<Work>, progress: bool)
    requires Midway(objects, initial, failed, log0, log, pending, |pending|, round, next, progress) && pending != []
    ensures LeastPropagated(objects, initial, failed) && WholeRound(round, pending, failed)
    ensures |round| <= |pending| && |next| <= |pending| && (progress ==> |next| < |pending|)
    ensures next == Left(round) && (progress <==> HasDone(round)) && Guarded(objects, initial, log, |log0|)
  {
    assert pending[..|pending|] == pending;
  }

  // One round over the pending units: what failed is returned for the next one.
  method Round(p: Preflight, w: World, pending: seq<Work>)
    returns (ok: bool, next: seq<Work>, progress: bool, ghost round: seq<Attempt>)
    requires pending != []
    modifies p`states, w
    ensures Extends(old(p.states), p.states) && (old(w.cancelled) ==> w.cancelled)
    ensures w.log == old(w.log) + round && |round| <= |pending|
    ensures Guarded(p.objects, old(p.states).Keys, w.log, |old(w.log)|)
    ensures |next| <= |pending| && (ok && progress ==> |next| < |pending|)
    ensures ok ==> LeastPropagated(p.objects, old(p.states).Keys, p.states.Keys)
    ensures ok ==> WholeRound(round, pending, p.states.Keys) && next == Left(round) && (progress <==> HasDone(round))
    ensures !ok ==> EndsTask(w)
  {
    next, progress, ok, round := [], false, true, [];
    for k := 0 to |pending|
      invariant Extends(old(p.states), p.states) && (old(w.cancelled) ==> w.cancelled)
      invariant Midway(p.objects, old(p.states).Keys, p.states.Keys, old(w.log), w.log, pending, k, round, next,
                       progress)
    {
      var cancelled := w.Cancelled();
      if cancelled { return false, next, progress, round; }
      ghost var before, start := w.log, p.states.Keys;
      var tried, outcome := Turn(p, w, pending[k]);
      if tried {
        ghost var a := Attempt(pending[k], outcome, p.states.Keys);
        if outcome.Fatal? {
          MidwayGuarded(p.objects, old(p.states).Keys, start, p.states.Keys, old(w.log), before, pending, k, round,
                        next, progress, a);
          return false, next, progress, round + [a];
        }
        MidwayAttempts(p.objects, old(p.states).Keys, start, p.states.Keys, old(w.log), before, pending, k, round, next,
                       progress, a);
        round := round + [a];
        if outcome.Failed? { next := next + [pending[k]]; } else { progress := true; }
      } else {
        MidwaySkips(p.objects, old(p.states).Keys, start, p.states.Keys, old(w.log), before, pending, k, round, next,
                    progress);
      }
    }
    MidwayEnds(p.objects, old(p.states).Keys, p.states.Keys, old(w.log), w.log, pending, round, next, progress);
  }

  lemma StillWhole(round: seq<Attempt>, pending: seq<Work>, k: nat, before: set<Id>, failed: set<Id>)
    requires k < |pending| && WholeRound(round, pending[..k], before) && |round| <= k && (k > 0 ==> failed == before)
    ensures WholeRound(round, pending[..k], failed)
  {
    assert k == 0 ==> pending[..k] == [] && round == [];
  }

  // Failures recorded earlier stay as they were.
  ghost predicate Extends(before: map<Id, Stage>, after: map<Id, Stage>) {
    before.Keys <= after.Keys && forall id :: id in before ==> after[id] == before[id]
  }

  function Ids(works: seq<Work>): set<Id> { set k | 0 <= k < |works| :: works[k].id }

  // Every object whose unit kept failing is withheld.
  method MarkFailed(p: Preflight, next: seq<Work>)
    modifies p`states
    ensures Extends(old(p.states), p.states)
    ensures LeastPropagated(p.objects, old(p.states).Keys + Ids(next), p.states.Keys)
    ensures forall id :: id in Ids(next) && id !in old(p.states) ==> p.states[id] == Execute
  {
    for k := 0 to |next|
      invariant Extends(old(p.states), p.states) && p.states.Keys == old(p.states).Keys + Ids(next[..k])
      invariant forall id :: id in Ids(next[..k]) && id !in old(p.states) ==> p.states[id] == Execute
    {
      IdsNext(next, k);
      if next[k].id !in p.states { p.states := p.states[next[k].id := Execute]; }
    }
    assert next[..|next|] == next;
    p.Propagate();
  }

  lemma IdsNext(works: seq<Work>, k: nat)
    requires k < |works|
    ensures Ids(works[..k + 1]) == Ids(works[..k]) + {works[k].id}
  {
    assert forall j :: 0 <= j < k ==> works[..k + 1][j] == works[..k][j];
    assert works[..k + 1][k] == works[k];
    forall id | id in Ids(works[..k]) ensures id in Ids(works[..k + 1]) {
      var j :| 0 <= j < k && works[..k][j].id == id;
      assert works[..k + 1][j].id == id;
    }
  }

  // ---- All rounds ----

  function Flatten(rounds: seq<seq<Attempt>>): seq<Attempt> {
    if rounds == [] then [] else Flatten(rounds[..|rounds| - 1]) + rounds[|rounds| - 1]
  }

  // What round r works on: first the whole plan, then what the round before left.
  function Pending(plan: seq<Work>, rounds: seq<seq<Attempt>>, r: nat): seq<Work>
    requires r <= |rounds|
  {
    if r == 0 then plan else Left(rounds[r - 1])
  }

  ghost predicate RoundAt(rounds: seq<seq<Attempt>>, plan: seq<Work>, failed: set<Id>, r: nat) {
    r < |rounds| ==>
      && Pending(plan, rounds, r) != [] && WholeRound(rounds[r], Pending(plan, rounds, r), failed)
      && (r > 0 ==> HasDone(rounds[r - 1]))
  }

  // Rounds follow one another as long as each completes something and leaves something.
  ghost predicate Rounds(rounds: seq<seq<Attempt>>, plan: seq<Work>, failed: set<Id>) {
    forall r: nat :: RoundAt(rounds, plan, failed, r)
  }

  ghost predicate Finished(rounds: seq<seq<Attempt>>, plan: seq<Work>) {
    Pending(plan, rounds, |rounds|) == [] || (rounds != [] && !HasDone(rounds[|rounds| - 1]))
  }

  lemma RoundsNext(rounds: seq<seq<Attempt>>, plan: seq<Work>, failed: set<Id>, round: seq<Attempt>)
    requires Rounds(rounds, plan, failed) && (rounds != [] ==> HasDone(rounds[|rounds| - 1]))
    requires Pending(plan, rounds, |rounds|) != [] && WholeRound(round, Pending(plan, rounds, |rounds|), failed)
    ensures Rounds(rounds + [round], plan, failed) && Flatten(rounds + [round]) == Flatten(rounds) + round
    ensures Pending(plan, rounds + [round], |rounds| + 1) == Left(round)
  {
    var all := rounds + [round];
    assert all[..|rounds|] == rounds;
    forall r: nat ensures RoundAt(all, plan, failed, r) {
      if r < |all| {
        SamePending(rounds, plan, round, r);
        assert RoundAt(rounds, plan, failed, r);
      }
    }
  }

  lemma SamePending(rounds: seq<seq<Attempt>>, plan: seq<Work>, round: seq<Attempt>, r: nat)
    requires r <= |rounds|
    ensures Pending(plan, rounds + [round], r) == Pending(plan, rounds, r)
    ensures r < |rounds| ==> (rounds + [round])[r] == rounds[r]
    ensures r > 0 ==> (rounds + [round])[r - 1] == rounds[r - 1]
  {}

  // In the end what the last round left is withheld too, with all it reaches.
  ghost predicate Withholds(objects: seq<Object>, withheld: set<Id>, left: seq<Work>, states: map<Id, Stage>) {
    && LeastPropagated(objects, withheld + Ids(left), states.Keys)
    && (forall id :: id in Ids(left) && id in states && id !in withheld ==> states[id] == Execute)
  }

  // What is known between two rounds.
  ghost predicate Between(withheld: set<Id>, plan: seq<Work>, pending: seq<Work>, rounds: seq<seq<Attempt>>,
                          log0: seq<Attempt>, log: seq<Attempt>) {
    && log == log0 + Flatten(rounds) && Rounds(rounds, plan, withheld) && pending == Pending(plan, rounds, |rounds|)
    && (rounds != [] ==> HasDone(rounds[|rounds| - 1]))
  }

  lemma AnotherRound(before: set<Id>, withheld: set<Id>, plan: seq<Work>, pending: seq<Work>,
                     rounds: seq<seq<Attempt>>, log0: seq<Attempt>, log: seq<Attempt>, round: seq<Attempt>)
    requires Between(before, plan, pending, rounds, log0, log) && pending != []
    requires (rounds != [] ==> withheld == before) && WholeRound(round, pending, withheld)
    ensures Rounds(rounds + [round], plan, withheld) && log + round == log0 + Flatten(rounds + [round])
    ensures Pending(plan, rounds + [round], |rounds| + 1) == Left(round)
  {
    Joined(log0, Flatten(rounds), round);
    SameRounds(rounds, plan, before, withheld);
    RoundsNext(rounds, plan, withheld, round);
  }

  lemma Joined(a: seq<Attempt>, b: seq<Attempt>, c: seq<Attempt>)
    ensures a + b + c == a + (b + c)
  {}

  lemma SameRounds(rounds: seq<seq<Attempt>>, plan: seq<Work>, before: set<Id>, withheld: set<Id>)
    requires Rounds(rounds, plan, before) && (rounds != [] ==> withheld == before)
    ensures Rounds(rounds, plan, withheld)
  {
    if rounds == [] { NoRounds(plan, withheld); }
  }

  lemma NoRounds(plan: seq<Work>, withheld: set<Id>)
    ensures Rounds([], plan, withheld)
  {}

  lemma NothingLeft(objects: seq<Object>, initial: set<Id>, withheld: set<Id>, states: map<Id, Stage>)
    requires LeastPropagated(objects, initial, withheld) && states.Keys == withheld
    ensures Withholds(objects, withheld, [], states)
  {
    assert withheld + Ids([]) == withheld;
  }

  // Rounds until nothing is left or nothing more succeeds.
  method RunRounds(p: Preflight, w: World, plan: seq<Work>)
    returns (ok: bool, ghost rounds: seq<seq<Attempt>>, ghost withheld: set<Id>)
    modifies p`states, w
    ensures Extends(old(p.states), p.states) && (old(w.cancelled) ==> w.cancelled)
    ensures old(w.log) <= w.log && Guarded(p.objects, old(p.states).Keys, w.log, |old(w.log)|)
    ensures |w.log| <= |old(w.log)| + Triangle(|plan|)
    ensures !ok ==> EndsTask(w)
    ensures ok ==> w.log == old(w.log) + Flatten(rounds) && Rounds(rounds, plan, withheld)
                   && Finished(rounds, plan)
    ensures ok ==> if rounds == [] then p.states == old(p.states)
                   else LeastPropagated(p.objects, old(p.states).Keys, withheld)
                        && Withholds(p.objects, withheld, Left(rounds[|rounds| - 1]), p.states)
  {
    var pending := plan;
    rounds, withheld := [], p.states.Keys;
    while pending != []
      invariant Extends(old(p.states), p.states) && (old(w.cancelled) ==> w.cancelled)
      invariant old(w.log) <= w.log && Guarded(p.objects, old(p.states).Keys, w.log, |old(w.log)|)
      invariant |w.log| + Triangle(|pending|) <= |old(w.log)| + Triangle(|plan|)
      invariant withheld == p.states.Keys && (rounds == [] ==> p.states == old(p.states))
      invariant Between(withheld, plan, pending, rounds, old(w.log), w.log)
      invariant Reached(p.objects, old(p.states).Keys, withheld, rounds != [])
      decreases |pending|
    {
      ghost var before, start := w.log, p.states.Keys;
      var next, progress;
      ghost var round;
      ok, next, progress, round := Round(p, w, pending);
      TriangleGrows(|next|, |pending|);
      GuardedMore(p.objects, old(p.states).Keys, start, before, w.log, |old(w.log)|);
      if !ok { return; }
      ReachedNext(p.objects, old(p.states).Keys, start, p.states.Keys, rounds != []);
      AnotherRound(start, p.states.Keys, plan, pending, rounds, old(w.log), before, round);
      withheld := p.states.Keys;
      rounds := rounds + [round];
      if next == [] {
        NothingLeft(p.objects, old(p.states).Keys, withheld, p.states);
        return;
      }
      if !progress {
        MarkFailed(p, next);
        return;
      }
      TriangleGrows(|next|, |pending| - 1);
      pending := next;
    }
    ok := true;
  }

  // ---------------------------------------------------------------------------
  // What the rounds complete
  // ---------------------------------------------------------------------------

  ghost predicate Succeeded(log: seq<Attempt>, work: Work) {
    exists k :: 0 <= k < |log| && log[k].work == work && log[k].outcome == Done
  }

  lemma {:induction false} TodoHas(pending: seq<Work>, failed: set<Id>, work: Work)
    requires work in pending && work.id !in failed
    ensures work in Todo(pending, failed)
  {
    var n := |pending| - 1;
    if work != pending[n] { TodoHas(pending[..n], failed, work); }
  }

  lemma {:induction false} LeftHas(round: seq<Attempt>, k: nat)
    requires k < |round| && round[k].outcome == Failed
    ensures round[k].work in Left(round)
  {
    if k < |round| - 1 { LeftHas(round[..|round| - 1], k); }
  }

  lemma RoundSettles(round: seq<Attempt>, pending: seq<Work>, failed: set<Id>, work: Work)
    requires WholeRound(round, pending, failed) && work in pending && work.id !in failed
    ensures Succeeded(round, work) || work in Left(round)
  {
    TodoHas(pending, failed, work);
    var k :| 0 <= k < |round| && Works(round)[k] == work;
    if round[k].outcome == Failed { LeftHas(round, k); }
  }

  lemma SucceededLater(a: seq<Attempt>, b: seq<Attempt>, work: Work)
    requires Succeeded(a, work) || Succeeded(b, work)
    ensures Succeeded(a + b, work)
  {
    if Succeeded(a, work) {
      var k :| 0 <= k < |a| && a[k].work == work && a[k].outcome == Done;
      assert (a + b)[k] == a[k];
    } else {
      var k :| 0 <= k < |b| && b[k].work == work && b[k].outcome == Done;
      assert (a + b)[|a| + k] == b[k];
    }
  }

  lemma {:induction false} RoundsSettle(rounds: seq<seq<Attempt>>, plan: seq<Work>, failed: set<Id>, work: Work)
    requires Rounds(rounds, plan, failed) && work in plan && work.id !in failed
    ensures Succeeded(Flatten(rounds), work) || work in Pending(plan, rounds, |rounds|)
  {
    if rounds != [] {
      var n := |rounds| - 1;
      FewerRounds(rounds, plan, failed, n);
      RoundsSettle(rounds[..n], plan, failed, work);
      assert RoundAt(rounds, plan, failed, n);
      if !Succeeded(Flatten(rounds[..n]), work) { RoundSettles(rounds[n], Pending(plan, rounds, n), failed, work); }
      if Succeeded(Flatten(rounds[..n]), work) || Succeeded(rounds[n], work) {
        SucceededLater(Flatten(rounds[..n]), rounds[n], work);
      }
    }
  }

  lemma FewerRounds(rounds: seq<seq<Attempt>>, plan: seq<Work>, failed: set<Id>, n: nat)
    requires Rounds(rounds, plan, failed) && n < |rounds|
    ensures Rounds(rounds[..n], plan, failed) && Pending(plan, rounds[..n], n) == Pending(plan, rounds, n)
  {
    forall r: nat ensures RoundAt(rounds[..n], plan, failed, r) {
      if r < n { assert RoundAt(rounds, plan, failed, r); }
    }
  }

  // When a phase ends, every unit of an object that is not withheld was executed successfully.
  lemma NotWithheldIsDone(rounds: seq<seq<Attempt>>, plan: seq<Work>, objects: seq<Object>, withheld: set<Id>,
                          states: map<Id, Stage>, work: Work)
    requires Rounds(rounds, plan, withheld) && Finished(rounds, plan) && rounds != []
    requires Withholds(objects, withheld, Left(rounds[|rounds| - 1]), states)
    requires work in plan && work.id !in states
    ensures Succeeded(Flatten(rounds), work)
  {
    RoundsSettle(rounds, plan, withheld, work);
    LeftIsWithheld(objects, withheld, Left(rounds[|rounds| - 1]), states, work);
  }

  lemma LeftIsWithheld(objects: seq<Object>, withheld: set<Id>, left: seq<Work>, states: map<Id, Stage>, work: Work)
    requires Withholds(objects, withheld, left, states) && work.id !in states
    ensures work !in left
  {
    forall k | 0 <= k < |left| ensures left[k] != work { assert left[k].id in Ids(left); }
  }

  // The whole phase: what is withheld from the start is what failures before it reach; in the end also what
  // the units reach that failed in a last round without a success.
  method ExecutePhase(p: Preflight, w: World, phase: string)
    returns (ok: bool, ghost rounds: seq<seq<Attempt>>, ghost withheld: set<Id>)
    modifies p`states, w
    ensures Extends(old(p.states), p.states) && (old(w.cancelled) ==> w.cancelled)
    ensures old(w.log) <= w.log && Guarded(p.objects, old(p.states).Keys, w.log, |old(w.log)|)
    ensures |w.log| <= |old(w.log)| + Triangle(|Plan(p.objects, phase)|)
    ensures !ok ==> EndsTask(w)
    ensures ok ==> w.log == old(w.log) + Flatten(rounds) && Rounds(rounds, Plan(p.objects, phase), withheld)
                   && Finished(rounds, Plan(p.objects, phase))
    ensures ok ==> if rounds == [] then p.states == old(p.states)
                   else LeastPropagated(p.objects, old(p.states).Keys, withheld)
                        && Withholds(p.objects, withheld, Left(rounds[|rounds| - 1]), p.states)
    ensures ok ==> AllSettled(Flatten(rounds), p.states.Keys, Plan(p.objects, phase))
  {
    var plan := PlanPhase(p.objects, phase);
    ok, rounds, withheld := RunRounds(p, w, plan);
    if ok {
      forall k | 0 <= k < |plan| && plan[k].id !in p.states ensures Succeeded(Flatten(rounds), plan[k]) {
        NotWithheldIsDone(rounds, plan, p.objects, withheld, p.states, plan[k]);
      }
    }
  }

  // Every unit succeeded, or its object is withheld.
  ghost predicate AllSettled(log: seq<Attempt>, failed: set<Id>, plan: seq<Work>) {
    forall k :: 0 <= k < |plan| && plan[k].id !in failed ==> Succeeded(log, plan[k])
  }

  // With nothing withheld before, and a writer that never fails, a phase withholds nothing.
  lemma NothingFails(rounds: seq<seq<Attempt>>, plan: seq<Work>, objects: seq<Object>, withheld: set<Id>,
                     states: map<Id, Stage>)
    requires Rounds(rounds, plan, withheld) && rounds != [] && LeastPropagated(objects, {}, withheld)
    requires Withholds(objects, withheld, Left(rounds[|rounds| - 1]), states)
    requires forall k :: 0 <= k < |Flatten(rounds)| ==> Flatten(rounds)[k].outcome == Done
    ensures states == map[] && |rounds| == 1 && Works(rounds[0]) == plan
  {
    var n := |rounds| - 1;
    AllDoneBefore(rounds, n);
    NoneLeft(rounds[n]);
    NothingReached(objects, withheld, states);
    assert RoundAt(rounds, plan, withheld, n);
    if n > 0 {
      AllDoneBefore(rounds, n - 1);
      NoneLeft(rounds[n - 1]);
    }
    TodoAll(plan);
  }

  lemma NothingReached(objects: seq<Object>, withheld: set<Id>, states: map<Id, Stage>)
    requires LeastPropagated(objects, {}, withheld) && Withholds(objects, withheld, [], states)
    ensures withheld == {} && states == map[]
  {
    assert Propagated(objects, {});
    assert withheld + Ids([]) == {};
  }

  lemma {:induction false} AllDoneBefore(rounds: seq<seq<Attempt>>, r: nat)
    requires r < |rounds| && forall k :: 0 <= k < |Flatten(rounds)| ==> Flatten(rounds)[k].outcome == Done
    ensures forall k :: 0 <= k < |rounds[r]| ==> rounds[r][k].outcome == Done
  {
    var n := |rounds| - 1;
    var before := Flatten(rounds[..n]);
    if r == n {
      assert forall k :: 0 <= k < |rounds[n]| ==> Flatten(rounds)[|before| + k] == rounds[n][k];
    } else {
      assert forall k :: 0 <= k < |before| ==> Flatten(rounds)[k] == before[k];
      AllDoneBefore(rounds[..n], r);
    }
  }

  lemma {:induction false} NoneLeft(round: seq<Attempt>)
    requires forall k :: 0 <= k < |round| ==> round[k].outcome == Done
    ensures Left(round) == []
  {
    if round != [] { NoneLeft(round[..|round| - 1]); }
  }

  lemma {:induction false} TodoAll(pending: seq<Work>)
    ensures Todo(pending, {}) == pending
  {
    if pending != [] { TodoAll(pending[..|pending| - 1]); }
  }

  // ---------------------------------------------------------------------------
  // Transitive prerequisites
  // ---------------------------------------------------------------------------

  // Each object depends on, or is a child of, the next.
  ghost predicate Chain(objects: seq<Object>, path: seq<Object>) {
    && (forall i :: 0 <= i < |path| ==> path[i] in objects)
    && (forall i :: 0 <= i < |path| - 1 ==> Needs(path[i], path[i + 1].id))
  }

  lemma {:induction false} FailureReachesChain(objects: seq<Object>, failed: set<Id>, path: seq<Object>)
    requires Propagated(objects, failed) && path != [] && Chain(objects, path)
    requires path[|path| - 1].id in failed || Depends(path[|path| - 1], failed)
    ensures path[0].id in failed
  {
    if |path| > 1 {
      FailureReachesChain(objects, failed, path[1..]);
      assert Needs(path[0], path[1].id) && Depends(path[0], failed);
    }
    var i :| 0 <= i < |objects| && objects[i] == path[0];
  }

  // No statement is ever run for an object that has a failed prerequisite, however indirect.
  lemma NeverRunsUnprepared(objects: seq<Object>, initial: set<Id>, log: seq<Attempt>, from: nat, k: nat,
      path: seq<Object>)
    requires Guarded(objects, initial, log, from) && from <= k < |log|
    requires path != [] && Chain(objects, path) && path[0].id == log[k].work.id
    ensures path[|path| - 1].id !in log[k].failed && !Depends(path[|path| - 1], log[k].failed)
    ensures path[|path| - 1].id !in initial
  {
    if path[|path| - 1].id in log[k].failed || Depends(path[|path| - 1], log[k].failed) {
      FailureReachesChain(objects, log[k].failed, path);
    }
  }
}
