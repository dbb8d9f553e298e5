/**
 What the modem is restarted with: the minima that the loop finds, and whether the modem fixes
 as often as every trip asks for.
 */
module TripIntervals {
  import opened Ordered
  import opened TripBatching
  import opened TripRuns

  // ----- the minima -----------------------------------------------------------------

  /** What a trip still has to go; negative once it is past its distance. */
  ghost function Remaining(s: TripSession): int {
    s.tripDistance - s.thisTrip
  }

  ghost predicate IsLeastRemaining(least: int, sessions: map<nat, TripSession>) {
    && (exists id :: id in sessions && Remaining(sessions[id]) == least)
    && (forall id :: id in sessions ==> least <= Remaining(sessions[id]))
  }

  /**
   In any restart, the loop finds the true minimum of what remains exactly if no trip is past its
   distance, where the subtraction wraps, and it is not so that some trip has just reached its
   distance and the trip with the greatest id has not.
   */
  lemma RemainingMinimumIff(sessions: map<nat, TripSession>)
    requires sessions != map[]
    ensures IsLeastRemaining(Smallest(Remainders(sessions)), sessions) <==>
            && (forall id :: id in sessions ==> sessions[id].thisTrip <= sessions[id].tripDistance)
            && !ForgetsZero(Remainders(sessions))
  {
    var some :| some in sessions;
    assert some in Remainders(sessions);
    LoopMinIff(Remainders(sessions));
    var least := Smallest(Remainders(sessions));
    hide Smallest, ForgetsZero;
    if forall id :: id in sessions ==> sessions[id].thisTrip <= sessions[id].tripDistance {
      SameLeast(least, sessions);
    }
  }

  lemma SameLeast(least: nat, sessions: map<nat, TripSession>)
    requires forall id :: id in sessions ==> sessions[id].thisTrip <= sessions[id].tripDistance
    ensures IsLeastRemaining(least, sessions) <==> IsLeast(least, Remainders(sessions))
  {
    var remainders := Remainders(sessions);
    assert remainders.Keys == sessions.Keys;
    forall id | id in sessions ensures remainders[id] == Remaining(sessions[id]) {
      NoWrap(sessions[id].tripDistance, sessions[id].thisTrip);
    }
    hide Remainders;
  }

  /** After a report, whatever its value, every trip left is short of its distance: the minimum is true and positive. */
  lemma ReportFindsMinimum(w: World, value: u32)
    requires Swept(w.a, value).sessions != map[]
    ensures var kept := Swept(w.a, value).sessions;
            var least := Smallest(Remainders(kept));
            least > 0 && IsLeastRemaining(least, kept)
  {
    ReportPartitions(w, value, true);
    var kept := Swept(w.a, value).sessions;
    hide Swept, AfterReport;
    assert forall id :: id in kept ==> kept[id].thisTrip < kept[id].tripDistance;
    RemainingMinimumIff(kept);
    NothingForgotten(kept);
    var least := Smallest(Remainders(kept));
    hide Smallest, Remainders;
    assert IsLeastRemaining(least, kept);
  }

  lemma NothingForgotten(sessions: map<nat, TripSession>)
    requires forall id :: id in sessions ==> sessions[id].thisTrip < sessions[id].tripDistance
    ensures !ForgetsZero(Remainders(sessions))
  {
    forall id | id in sessions ensures Remainders(sessions)[id] > 0 {
      NoWrap(sessions[id].tripDistance, sessions[id].thisTrip);
    }
  }

  /**
   The loop finds the true minimum of any intervals exactly if it is not so that some trip asks
   for 0 and the trip with the greatest id does not; and then what it finds is positive.
   */
  lemma IntervalMinimumIff(sessions: map<nat, TripSession>)
    requires sessions != map[]
    ensures var least := Smallest(Intervals(sessions));
            && (IsLeast(least, Intervals(sessions)) <==> !ForgetsZero(Intervals(sessions)))
            && (ForgetsZero(Intervals(sessions)) ==> least > 0)
  {
    var some :| some in sessions;
    assert some in Intervals(sessions);
    LoopMinIff(Intervals(sessions));
  }

  // ----- the modem and the books -----------------------------------------------------

  /** The adapter's ongoing values are those of the batch the modem last accepted. */
  ghost predicate ModemAgrees(w: World) {
    w.modem == Batch(w.a.ongoingDistance, w.a.ongoingInterval)
  }

  /** As long as there is a trip; the books are cleared whether or not the modem agrees to stop. */
  ghost predicate AgreesWhileRunning(w: World) {
    w.a.sessions != map[] ==> ModemAgrees(w)
  }

  lemma StepAgrees(w: World, m: Move)
    requires AgreesWhileRunning(w) && Legal(w, m)
    ensures AgreesWhileRunning(Next(w, m))
  {
    hide Swept, RestartPlan, JoinPlan, AllRebased, AllCarriedOver;
    match m
    case Travel(_) =>
    case Join(_, _, _, _, _) =>
    case Leave(_, _, _) => assert w.a.sessions != map[];
    case Report(value, accepted) =>
      var sweep := Swept(w.a, value);
      if w.a.sessions == map[] { NoneToReport(w, value); }
  }

  lemma NoneToReport(w: World, value: u32)
    requires w.a.sessions == map[]
    ensures Swept(w.a, value).completed == [] && Swept(w.a, value).sessions == map[]
  {
  }

  /** In every run the modem is programmed with what the books say, as long as there is a trip. */
  lemma {:induction false} RunAgrees(ms: seq<Move>)
    requires LegalRun(ms)
    ensures AgreesWhileRunning(Run(ms))
  {
    if ms != [] {
      RunAgrees(ms[..|ms| - 1]);
      hide Next, Legal, AgreesWhileRunning;
      StepAgrees(Run(ms[..|ms| - 1]), ms[|ms| - 1]);
    }
  }

  /** When the last trip is stopped, the modem stops exactly if it accepts the command. */
  lemma LastStopIff(w: World, m: Move)
    requires Legal(w, m) && m.Leave? && w.a.sessions.Keys == {m.id} && w.modem != Batch(0, 0)
    ensures Next(w, m).a.sessions == map[]
    ensures Next(w, m).modem == Batch(0, 0) <==> m.accepted
  {
    assert (w.a.sessions - {m.id}).Keys == {};
  }

  // ----- whether the modem fixes often enough ------------------------------------------

  /** The interval is at most what any of the trips asks for. */
  ghost predicate Suits(interval: u32, sessions: map<nat, TripSession>) {
    forall id :: id in sessions ==> interval <= sessions[id].tbfInterval
  }

  /** The modem fixes at least as often as the most demanding trip asks. */
  ghost predicate Served(w: World) {
    Suits(w.modem.interval, w.a.sessions)
  }

  /** A restart changes no trip's own interval, and the ongoing one in the one way. */
  lemma RestartedIntervals(a: Adapter, counter: u32, accepted: bool)
    requires a.sessions != map[]
    ensures var least := Smallest(Intervals(a.sessions));
            var b := AfterRestart(a, counter, accepted).0;
            && b.sessions.Keys == a.sessions.Keys
            && (forall id :: id in a.sessions ==> b.sessions[id].tbfInterval == a.sessions[id].tbfInterval)
            && b.ongoingInterval ==
                 if accepted && (least < a.ongoingInterval || (least != a.ongoingInterval && a.intervalDropped))
                 then least else a.ongoingInterval
  {
    hide Smallest, Remainders, Intervals;
  }

  /** A restart keeps an interval that suits, but for exactly this case. */
  lemma RestartSuitsIff(a: Adapter, counter: u32, accepted: bool)
    requires Suits(a.ongoingInterval, a.sessions)
    ensures var b := AfterRestart(a, counter, accepted).0;
            Suits(b.ongoingInterval, b.sessions) <==>
            !(accepted && a.intervalDropped && ForgetsZero(Intervals(a.sessions)))
  {
    if a.sessions != map[] {
      IntervalMinimumIff(a.sessions);
      RestartedIntervals(a, counter, accepted);
      var least, b := Smallest(Intervals(a.sessions)), AfterRestart(a, counter, accepted).0;
      hide AfterRestart, Smallest;
      if ForgetsZero(Intervals(a.sessions)) {
        var zero :| zero in a.sessions && a.sessions[zero].tbfInterval == 0;
        assert a.ongoingInterval == 0 && b.sessions[zero].tbfInterval == 0;
      } else {
        LeastSuits(least, a.sessions);
      }
    }
  }

  lemma LeastSuits(least: nat, sessions: map<nat, TripSession>)
    requires IsLeast(least, Intervals(sessions))
    ensures forall id :: id in sessions ==> least <= sessions[id].tbfInterval
  {
    assert Intervals(sessions).Keys == sessions.Keys;
  }

  /** The trips a report leaves, as they were. */
  ghost function Survivors(w: World, value: u32): map<nat, TripSession> {
    map id | id in w.a.sessions && !Completed(w.a.sessions[id], value) :: w.a.sessions[id]
  }

  /**
   The step that can leave a trip with fewer fixes than it asked for: a restart, after a trip with
   the ongoing interval went, of trips among which the loop forgets a zero.
   */
  ghost predicate LosesZero(w: World, m: Move)
    requires Legal(w, m)
  {
    match m
    case Leave(id, _, accepted) =>
      && accepted && ForgetsZero(Intervals(w.a.sessions - {id}))
      && (w.a.intervalDropped || w.a.sessions[id].tbfInterval == w.a.ongoingInterval)
    case Report(value, accepted) =>
      && accepted && ForgetsZero(Intervals(Survivors(w, value))) && Survivors(w, value).Keys != w.a.sessions.Keys
      && (w.a.intervalDropped || DropsInterval(w.a.sessions, w.a.sessions.Keys, value, w.a.ongoingInterval))
    case _ => false
  }

  lemma SameIntervals(a: map<nat, TripSession>, b: map<nat, TripSession>)
    requires a.Keys == b.Keys && forall id :: id in a ==> a[id].tbfInterval == b[id].tbfInterval
    ensures Intervals(a) == Intervals(b)
    ensures forall x :: Suits(x, a) <==> Suits(x, b)
  {
  }

  lemma CompletedIff(w: World, value: u32)
    ensures DoneInOrder(w.a.sessions, w.a.sessions.Keys, value) == [] <==>
            Survivors(w, value).Keys == w.a.sessions.Keys
  {
    var done := DoneInOrder(w.a.sessions, w.a.sessions.Keys, value);
    DoneInOrderIs(w.a.sessions, w.a.sessions.Keys, value);
    hide DoneInOrder;
    if done != [] { assert done[0] in done && done[0] !in Survivors(w, value); }
    if Survivors(w, value).Keys != w.a.sessions.Keys {
      var id :| id in w.a.sessions && id !in Survivors(w, value);
      assert id in done;
    }
  }

  lemma ReportSuitsIff(w: World, value: u32, accepted: bool)
    requires Suits(w.a.ongoingInterval, w.a.sessions)
    ensures var b := AfterReport(w.a, value, accepted).0;
            Suits(b.ongoingInterval, b.sessions) <==> !LosesZero(w, Report(value, accepted))
  {
    SweepIs(Sweep(w.a.sessions, [], w.a.intervalDropped, w.a.distanceDropped), w.a.sessions, w.a.sessions.Keys,
            value, w.a.ongoingDistance, w.a.ongoingInterval);
    CompletedIff(w, value);
    var sweep := Swept(w.a, value);
    assert sweep.completed == [] + DoneInOrder(w.a.sessions, w.a.sessions.Keys, value);
    SameIntervals(sweep.sessions, Survivors(w, value));
    hide Swept, AfterRestart, DropsInterval, Survivors, ForgetsZero, Completed, Intervals;
    RestartSuitsIff(w.a.(sessions := sweep.sessions, intervalDropped := sweep.intervalDropped,
                         distanceDropped := sweep.distanceDropped), value, accepted);
  }

  lemma StartSuits(a: Adapter, id: nat, distance: u32, interval: u32, started: bool, query: Query)
    requires Suits(a.ongoingInterval, a.sessions)
    ensures var b := AfterStart(a, id, distance, interval, started, query).0; Suits(b.ongoingInterval, b.sessions)
  {
    if a.sessions != map[] {
      var plan := JoinPlan(a, distance, interval, query);
      assert plan.interval <= a.ongoingInterval && plan.interval <= interval;
      assert !plan.restart ==> a.ongoingInterval <= interval;
      hide JoinPlan;
      match query
      case QueryFailed =>
      case Counter(_) =>
    }
  }

  lemma StopSuitsIff(w: World, id: nat, answer: u32, accepted: bool)
    requires Suits(w.a.ongoingInterval, w.a.sessions) && id in w.a.sessions
    ensures var b := AfterStop(w.a, id, answer, accepted).0;
            Suits(b.ongoingInterval, b.sessions) <==> !LosesZero(w, Leave(id, answer, accepted))
  {
    var s, left := w.a.sessions[id], w.a.sessions - {id};
    assert left == map[] ==> !ForgetsZero(Intervals(left));
    hide AfterRestart, ForgetsZero, Intervals;
    RestartSuitsIff(w.a.(sessions := left,
                         intervalDropped := w.a.intervalDropped || s.tbfInterval == w.a.ongoingInterval,
                         distanceDropped := w.a.distanceDropped || s.tripDistance == w.a.ongoingDistance),
                    answer, accepted);
  }

  /** A step keeps every trip served exactly if it loses no zero. */
  lemma StepServesIff(w: World, m: Move)
    requires Served(w) && AgreesWhileRunning(w) && Legal(w, m)
    ensures Served(Next(w, m)) <==> !LosesZero(w, m)
  {
    StepAgrees(w, m);
    if m.Travel? {
    } else {
      var (b, _) := Handled(w, m);
      assert Next(w, m).a == b;
      assert Suits(w.a.ongoingInterval, w.a.sessions) && (Served(Next(w, m)) <==> Suits(b.ongoingInterval, b.sessions));
      hide Next, AfterStart, AfterStop, AfterReport, Suits, Served;
      match m
      case Join(id, distance, interval, started, queryOk) =>
        StartSuits(w.a, id, distance, interval, started, QueryOf(w, m));
      case Leave(id, answer, accepted) =>
        StopSuitsIff(w, id, answer, accepted);
      case Report(value, accepted) =>
        ReportSuitsIff(w, value, accepted);
    }
  }

  ghost predicate AlwaysServed(ms: seq<Move>)
    requires LegalRun(ms)
  {
    Served(Run(ms)) && (ms != [] ==> AlwaysServed(ms[..|ms| - 1]))
  }

  ghost predicate NeverLosesZero(ms: seq<Move>)
    requires LegalRun(ms)
  {
    ms != [] ==> NeverLosesZero(ms[..|ms| - 1]) && !LosesZero(Run(ms[..|ms| - 1]), ms[|ms| - 1])
  }

  /**
   Over all runs, whatever the answers: in every state the interval the modem last accepted is at
   most what any running trip asks for, if and only if no restart ever loses an interval of zero.
   */
  lemma {:induction false} EveryTripIsServed(ms: seq<Move>)
    requires LegalRun(ms)
    ensures AlwaysServed(ms) <==> NeverLosesZero(ms)
  {
    if ms != [] {
      var before := ms[..|ms| - 1];
      EveryTripIsServed(before);
      RunAgrees(before);
      hide Next, Legal, LosesZero, AgreesWhileRunning;
      if AlwaysServed(before) {
        ServedNow(before);
        StepServesIff(Run(before), ms[|ms| - 1]);
      }
    }
  }

  lemma ServedNow(ms: seq<Move>)
    requires LegalRun(ms) && AlwaysServed(ms)
    ensures Served(Run(ms))
  {
  }

  ghost predicate PositiveIntervals(sessions: map<nat, TripSession>) {
    forall id :: id in sessions ==> sessions[id].tbfInterval > 0
  }

  lemma StepPositive(w: World, m: Move)
    requires PositiveIntervals(w.a.sessions) && w.road.Keys == w.a.sessions.Keys
    requires Legal(w, m) && (m.Join? ==> m.interval > 0)
    ensures PositiveIntervals(Next(w, m).a.sessions) && !LosesZero(w, m)
  {
    hide JoinPlan, Completed, DropsInterval;
    if m.Leave? || m.Report? {
      StayingIs(w, m);
      StayedInterval(w, m);
      hide Handled, Stayed;
    }
  }

  lemma StayedInterval(w: World, m: Move)
    requires Legal(w, m) && (m.Leave? || m.Report?)
    ensures forall s: TripSession :: Stayed(w, m, s).tbfInterval == s.tbfInterval
  {
    hide Handled;
  }

  /** So with positive intervals every trip is served in every run. */
  lemma {:induction false} PositiveIsServed(ms: seq<Move>)
    requires LegalRun(ms)
    requires forall i :: 0 <= i < |ms| && ms[i].Join? ==> ms[i].interval > 0
    ensures PositiveIntervals(Run(ms).a.sessions) && NeverLosesZero(ms) && AlwaysServed(ms)
  {
    if ms != [] {
      PositiveIsServed(ms[..|ms| - 1]);
      DistancesKeptIff(ms[..|ms| - 1]);
      hide Next, Legal, LosesZero;
      StepPositive(Run(ms[..|ms| - 1]), ms[|ms| - 1]);
    }
    EveryTripIsServed(ms);
  }
}
