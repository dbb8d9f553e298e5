/** Runs of the trip multiplexer in which something is lost or credited too much. */
module TripExamples {
  import opened Ordered
  import opened TripBatching
  import opened TripRuns
  import opened TripIntervals
  import opened TripTargets

  lemma RunNext(ms: seq<Move>, m: Move)
    requires LegalRun(ms) && Legal(Run(ms), m)
    ensures LegalRun(ms + [m]) && Run(ms + [m]) == Next(Run(ms), m)
  {
    assert (ms + [m])[..|ms|] == ms;
  }

  lemma NoRun()
    ensures LegalRun([]) && Run([]) == START
  {
  }

  lemma FirstJoin(w: World, id: nat, distance: u32, interval: u32)
    requires w.a.sessions == map[]
    ensures var next := Next(w, Join(id, distance, interval, true, true));
            && next.counter == 0 && next.road == map[id := if id in w.road then w.road[id] else 0]
            && next.a == w.a.(sessions := map[id := TripSession(0, 0, 0, distance, interval)],
                              ongoingDistance := distance, ongoingInterval := interval)
  {
  }

  /** A join that asks for nothing sooner or more often than the modem does already. */
  lemma QuietJoin(w: World, id: nat, distance: u32, interval: u32)
    requires w.a.sessions.Keys != {} && id !in w.a.sessions && w.road.Keys == w.a.sessions.Keys
    requires w.a.ongoingInterval <= interval && Sub32(w.a.ongoingDistance, w.counter) <= distance
    ensures var next := Next(w, Join(id, distance, interval, true, true));
            && next.counter == w.counter && next.road == w.road[id := 0]
            && next.a == w.a.(sessions := w.a.sessions[id := TripSession(w.counter, 0, 0, distance, interval)])
  {
  }

  /** Stopping the trip that gave the ongoing distance, of two: the modem is restarted for the other. */
  lemma StopOfTwo(w: World, id: nat, other: nat, answer: u32)
    requires id != other && w.a.sessions.Keys == {id, other} && w.road.Keys == {id, other}
    requires w.a.sessions[id].tripDistance == w.a.ongoingDistance
    requires Sub32(w.a.sessions[other].tripDistance, w.a.sessions[other].thisTrip) > 0
    ensures var next := Next(w, Leave(id, answer, true));
            && next.counter == 0 && next.road == map[other := w.road[other]]
            && next.a.sessions == map[other := Rebased(w.a.sessions[other], answer)]
  {
    var m, s := Leave(id, answer, true), w.a.sessions[other];
    var left := w.a.sessions - {id};
    assert left == map[other := s];
    var b := w.a.(sessions := left,
                  intervalDropped := w.a.intervalDropped || w.a.sessions[id].tbfInterval == w.a.ongoingInterval,
                  distanceDropped := true);
    assert Remainders(left) == map[other := Sub32(s.tripDistance, s.thisTrip)];
    assert other in Remainders(left);
    assert Smallest(Remainders(left)) > 0 by {
      LoopMinIff(Remainders(left));
      assert !ForgetsZero(Remainders(left));
    }
    RestartedIs(b, answer, true);
    assert AfterRestart(b, answer, true).1.RestartTrip? by { hide Smallest, Remainders, Intervals; }
    hide AfterRestart, Remainders, Smallest;
    assert Handled(w, m) == AfterRestart(b, answer, true);
  }

  /** A join that asks for a fix sooner than the modem would: the modem is restarted. */
  lemma HurriedJoin(w: World, id: nat, distance: u32, interval: u32)
    requires w.a.sessions.Keys != {} && id !in w.a.sessions && w.road.Keys == w.a.sessions.Keys
    requires w.a.ongoingInterval <= interval && distance < Sub32(w.a.ongoingDistance, w.counter)
    ensures var next := Next(w, Join(id, distance, interval, true, true));
            && next.counter == 0 && next.road == w.road[id := 0]
            && next.a.sessions == AllCarriedOver(w.a.sessions)[id := TripSession(0, 0, 0, distance, interval)]
  {
  }

  /** One more step of an answered run. */
  lemma Further(ms: seq<Move>, m: Move)
    requires LegalRun(ms) && Answered(ms) && Legal(Run(ms), m) && AnswersCounter(Run(ms), m)
    ensures LegalRun(ms + [m]) && Answered(ms + [m]) && Run(ms + [m]) == Next(Run(ms), m)
  {
    assert (ms + [m])[..|ms|] == ms;
  }

  lemma NoRunAnswered()
    ensures LegalRun([]) && Answered([]) && Run([]) == START
  {
  }

  /** A first trip alone, after it has travelled. */
  lemma FirstTravels(id: nat, distance: u32, interval: u32, metres: u32) returns (ms: seq<Move>)
    ensures LegalRun(ms) && Answered(ms)
    ensures var w := Run(ms);
            && w.counter == metres && w.a.ongoingDistance == distance && w.a.ongoingInterval == interval
            && w.a.sessions.Keys == w.road.Keys == {id}
            && w.road[id] == metres && w.a.sessions[id] == TripSession(0, 0, 0, distance, interval)
  {
    var first := Join(id, distance, interval, true, true);
    NoRunAnswered();
    hide Run, LegalRun, Answered;
    Further([], first);
    FirstJoin(START, id, distance, interval);
    ms := [] + [first];
    Further(ms, Travel(metres));
    ms := ms + [Travel(metres)];
  }

  /** A second trip joins without a restart. */
  lemma SecondJoins(w: World, first: nat, id: nat, distance: u32, interval: u32)
    requires id != first && w.a.sessions.Keys == w.road.Keys == {first}
    requires w.a.ongoingInterval <= interval && Sub32(w.a.ongoingDistance, w.counter) <= distance
    ensures var next := Next(w, Join(id, distance, interval, true, true));
            && next.counter == w.counter && next.a.ongoingDistance == w.a.ongoingDistance
            && next.a.sessions.Keys == next.road.Keys == {first, id}
            && next.a.sessions[first] == w.a.sessions[first] && next.road[first] == w.road[first]
            && next.a.sessions[id] == TripSession(w.counter, 0, 0, distance, interval) && next.road[id] == 0
  {
    assert first in w.a.sessions;
    QuietJoin(w, id, distance, interval);
    hide Next, Sub32;
  }

  // ----- distance -------------------------------------------------------------------

  /**
   A trip of 100 travels 60 unreported, another trip joins and restarts the modem, and 40 more
   are travelled: 100 in all, but only 40 are recorded and the report does not complete the trip.
   */
  lemma JoinCanLoseDistance() returns (ms: seq<Move>)
    ensures LegalRun(ms) && Answered(ms) && 1 in Run(ms).a.sessions && 1 in Run(ms).road
    ensures Run(ms).road[1] == 100 == Run(ms).a.sessions[1].tripDistance
    ensures Distance(Run(ms), 1) == 40
    ensures 1 !in AfterReport(Run(ms).a, Run(ms).counter, true).2
  {
    ms := FirstTravels(1, 100, 10, 60);
    hide Run, LegalRun, Answered;
    Further(ms, Join(2, 10, 10, true, true));
    assert 1 in Run(ms).a.sessions;
    HurriedJoin(Run(ms), 2, 10, 10);
    ms := ms + [Join(2, 10, 10, true, true)];
    var w := Run(ms);
    assert w.counter == 0 && w.road.Keys == {1, 2} && w.road[1] == 60 && w.road[2] == 0;
    assert w.a.sessions[1] == TripSession(0, 0, 0, 100, 10);
    FortyMore(ms);
    ms := ms + [Travel(40)];
  }

  lemma FortyMore(before: seq<Move>)
    requires LegalRun(before) && Answered(before)
    requires Run(before).counter == 0 && Run(before).road.Keys == {1, 2}
    requires Run(before).road[1] == 60 && Run(before).road[2] == 0
    requires 1 in Run(before).a.sessions && Run(before).a.sessions[1] == TripSession(0, 0, 0, 100, 10)
    ensures var ms := before + [Travel(40)];
            && LegalRun(ms) && Answered(ms) && 1 in Run(ms).a.sessions && 1 in Run(ms).road
            && Run(ms).a.sessions[1] == TripSession(0, 0, 0, 100, 10)
            && Run(ms).road[1] == 100 && Distance(Run(ms), 1) == 40
            && 1 !in AfterReport(Run(ms).a, Run(ms).counter, true).2
  {
    hide Run, LegalRun, Answered, AfterReport;
    Further(before, Travel(40));
    var ms := before + [Travel(40)];
    RecordedIs(Run(ms).a.sessions[1], 40);
    ReportPartitions(Run(ms), 40, true);
  }

  /** Trip 1 of 150 joins beside trip 2, which then stops with this answer. */
  lemma StoppedBeside(before: seq<Move>, answer: u32) returns (ms: seq<Move>)
    requires LegalRun(before)
    requires Run(before).a.sessions.Keys == Run(before).road.Keys == {1, 2}
    requires Run(before).a.sessions[2].tripDistance == Run(before).a.ongoingDistance
    requires Run(before).a.sessions[1].thisTrip == 0 && Run(before).a.sessions[1].tripDistance == 150
    ensures ms == before + [Leave(2, answer, true)] && LegalRun(ms)
    ensures var w := Run(ms);
            && w.counter == 0 && w.road == map[1 := Run(before).road[1]]
            && w.a.sessions == map[1 := Rebased(Run(before).a.sessions[1], answer)]
  {
    RunNext(before, Leave(2, answer, true));
    ms := before + [Leave(2, answer, true)];
    hide Run, LegalRun, Next;
    StopOfTwo(Run(before), 2, 1, answer);
  }

  lemma Completes(w: World, id: nat, value: u32)
    requires id in w.a.sessions && w.a.sessions[id].tripDistance <= Recorded(w.a.sessions[id], value)
    ensures id in AfterReport(w.a, value, true).2
  {
    ReportPartitions(w, value, true);
  }

  /**
   Trip 1 of 150 joins when the counter shows 60.  Trip 2 stops; the query fails and leaves 0,
   and the modem restarts.  At once trip 1 is reported complete, having travelled nothing.
   */
  lemma UnansweredStopCanCompleteEarly() returns (ms: seq<Move>)
    ensures LegalRun(ms) && 1 in Run(ms).a.sessions && 1 in Run(ms).road
    ensures Run(ms).road[1] == 0 < 150 == Run(ms).a.sessions[1].tripDistance
    ensures Run(ms).counter == 0 && 1 in AfterReport(Run(ms).a, 0, true).2
  {
    ms := FirstTravels(2, 200, 5, 60);
    hide Run, LegalRun, Answered, Next;
    Further(ms, Join(1, 150, 10, true, true));
    SecondJoins(Run(ms), 2, 1, 150, 10);
    ms := ms + [Join(1, 150, 10, true, true)];
    ms := StoppedBeside(ms, 0);
    RecordedIs(TripSession(60, 0, 0, 150, 10), 0);
    RecordedIs(Run(ms).a.sessions[1], 0);
    Completes(Run(ms), 1, 0);
  }

  /** Trips 2 and 1 have travelled 90 together. */
  lemma TwoTravel() returns (ms: seq<Move>)
    ensures LegalRun(ms) && Answered(ms)
    ensures var w := Run(ms);
            && w.counter == 90 && w.a.sessions.Keys == w.road.Keys == {1, 2} && w.road[1] == 90
            && w.a.sessions[1] == TripSession(0, 0, 0, 150, 10)
            && w.a.sessions[2].tripDistance == w.a.ongoingDistance
  {
    ms := FirstTravels(2, 100, 10, 0);
    hide Run, LegalRun, Answered;
    Further(ms, Join(1, 150, 10, true, true));
    SecondJoins(Run(ms), 2, 1, 150, 10);
    ms := ms + [Join(1, 150, 10, true, true)];
    Further(ms, Travel(90));
    ms := ms + [Travel(90)];
  }

  /**
   A report of 90 is queued, and before it is handled trip 2 stops and the modem restarts: the 90
   are counted twice, and trip 1 of 150 is reported complete at 90.
   */
  lemma StaleReportCanCompleteEarly() returns (ms: seq<Move>)
    ensures LegalRun(ms) && Answered(ms) && 1 in Run(ms).a.sessions && 1 in Run(ms).road
    ensures Run(ms).road[1] == 90 < 150 == Run(ms).a.sessions[1].tripDistance
    ensures 1 in AfterReport(Run(ms).a, 90, true).2
  {
    ms := TwoTravel();
    hide Run, LegalRun, Answered, Restarts, Next;
    assert Legal(Run(ms), Leave(2, 90, true)) && AnswersCounter(Run(ms), Leave(2, 90, true));
    Further(ms, Leave(2, 90, true));
    ms := StoppedBeside(ms, 90);
    RecordedIs(TripSession(0, 0, 0, 150, 10), 90);
    RecordedIs(Run(ms).a.sessions[1], 90);
    Completes(Run(ms), 1, 90);
  }

  // ----- how far the modem goes -------------------------------------------------------

  lemma OneLeft(w: World, m: Move, s: TripSession)
    requires Legal(w, m) && (m.Leave? || m.Report?) && Restarts(w, m)
    requires Kept(w, m) == map[1 := s] && s.thisTrip < s.tripDistance && DistanceGone(w, m)
    ensures Next(w, m).modem.distance == s.tripDistance - s.thisTrip
  {
    AcceptedGoesLeast(w, m);
    var d := Next(w, m).modem.distance;
    hide Next, Restarts, Kept, DistanceGone;
    var id :| id in Kept(w, m) && Remaining(Kept(w, m)[id]) == d;
  }

  lemma TwoKept(w: World, m: Move)
    requires w.a.sessions.Keys == {1, 2} && w.a.sessions[1] == TripSession(0, 0, 0, 150, 10)
    requires w.a.sessions[2].tripDistance == w.a.ongoingDistance
    requires m == Leave(2, 90, true)
    ensures Kept(w, m) == map[1 := TripSession(0, 0, 0, 150, 10)] && DistanceGone(w, m) && Restarts(w, m)
    ensures Next(w, m).a.sessions == map[1 := Rebased(w.a.sessions[1], 90)]
  {
    var kept := Kept(w, m);
    assert kept.Keys == {1} && 2 !in kept;
    LeaveSeen(w, m);
    LeastOfOne(kept);
    RestartsIff(w, m, 150);
    LeavingIs(w, m);
    hide Handled, Seen;
    assert Next(w, m).a.sessions.Keys == {1};
  }

  lemma LeastOfOne(kept: map<nat, TripSession>)
    requires kept == map[1 := TripSession(0, 0, 0, 150, 10)]
    ensures AllShort(kept) && IsLeastRemaining(150, kept)
  {
    assert 1 in kept && Remaining(kept[1]) == 150;
  }

  /**
   Trip 1 of 150 has travelled 90, unreported, when trip 2 stops: the modem is restarted to go
   150 more, though trip 1 has only 60 to go.
   */
  lemma StopCanOvershoot() returns (ms: seq<Move>)
    ensures LegalRun(ms) && Answered(ms) && 1 in Run(ms).a.sessions
    ensures Run(ms).counter == 0 && Run(ms).modem.distance == 150
    ensures Run(ms).a.sessions[1].tripDistance == 150 && Distance(Run(ms), 1) == 90
    ensures !InTime(Run(ms))
  {
    ms := TwoTravel();
    var m, s := Leave(2, 90, true), TripSession(0, 0, 0, 150, 10);
    hide Run, LegalRun, Answered;
    assert Legal(Run(ms), m) && AnswersCounter(Run(ms), m);
    Further(ms, m);
    TwoKept(Run(ms), m);
    OneLeft(Run(ms), m, s);
    RestartGoes(Run(ms), m);
    RebasedKeepsIff(s, 90, 90);
    RecordedIs(s, 90);
    hide Next, Restarts, Kept, Recorded, Rebased;
    ms := ms + [m];
  }

  // ----- intervals ------------------------------------------------------------------

  lemma ThreeTrips(ms: seq<Move>)
    requires ms == [Join(1, 100, 0, true, true)] + [Join(2, 100, 10, true, true)] + [Join(3, 100, 0, true, true)]
    ensures LegalRun(ms)
    ensures var a := Run(ms).a;
            && a.ongoingInterval == 0
            && a.sessions == map[1 := TripSession(0, 0, 0, 100, 0)][2 := TripSession(0, 0, 0, 100, 10)]
                               [3 := TripSession(0, 0, 0, 100, 0)]
  {
    var first, second, third := Join(1, 100, 0, true, true), Join(2, 100, 10, true, true), Join(3, 100, 0, true, true);
    NoRun();
    hide Run, LegalRun, Next;
    RunNext([], first);
    FirstJoin(START, 1, 100, 0);
    assert [] + [first] == [first];
    RunNext([first], second);
    QuietJoin(Run([first]), 2, 100, 10);
    RunNext([first] + [second], third);
    QuietJoin(Run([first] + [second]), 3, 100, 0);
  }

  lemma ForgottenOnStop(w: World)
    requires ModemAgrees(w) && w.a.ongoingInterval == 0
    requires w.a.sessions.Keys == {1, 2, 3}
    requires w.a.sessions[1].tbfInterval == w.a.sessions[3].tbfInterval == 0 && w.a.sessions[2].tbfInterval == 10
    ensures var next := Next(w, Leave(3, 0, true));
            1 in next.a.sessions && next.a.sessions[1].tbfInterval == 0 < next.modem.interval
  {
    var left := w.a.sessions - {3};
    assert left.Keys == {1, 2} && Intervals(left)[1] == 0 && Intervals(left)[2] == 10;
    assert ForgetsZero(Intervals(left));
    IntervalMinimumIff(left);
    var b := w.a.(sessions := left, intervalDropped := true,
                  distanceDropped := w.a.distanceDropped || w.a.sessions[3].tripDistance == w.a.ongoingDistance);
    RestartedIntervals(b, 0, true);
    hide Smallest, Intervals, AfterRestart, ForgetsZero;
    StepAgrees(w, Leave(3, 0, true));
    assert AfterStop(w.a, 3, 0, true) == AfterRestart(b, 0, true);
  }

  /**
   Trips 1, 2 and 3 ask for intervals 0, 10 and 0, and trip 3 stops: the modem is restarted with
   a positive interval, though trip 1 asked for 0 and is still running.
   */
  lemma ZeroIntervalCanBeForgotten() returns (ms: seq<Move>)
    ensures LegalRun(ms) && 1 in Run(ms).a.sessions
    ensures Run(ms).a.sessions[1].tbfInterval == 0 < Run(ms).modem.interval
  {
    ms := [Join(1, 100, 0, true, true)] + [Join(2, 100, 10, true, true)] + [Join(3, 100, 0, true, true)];
    ThreeTrips(ms);
    RunAgrees(ms);
    assert Legal(Run(ms), Leave(3, 0, true)) && Run(ms).a.sessions.Keys == {1, 2, 3} && ModemAgrees(Run(ms));
    hide *;
    RunNext(ms, Leave(3, 0, true));
    ForgottenOnStop(Run(ms));
    ms := ms + [Leave(3, 0, true)];
  }
}
