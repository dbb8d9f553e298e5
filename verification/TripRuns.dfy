/**
 Trip batching against the road.  A `World` is the adapter, the modem's counter, the batch the
 modem last accepted and, for each trip, the distance really travelled since it joined.  The
 counter only grows, and a (re)started modem batch sets it to 0.

 A stop that restarts the modem goes by the answer to a query whose failure nobody looks at, and
 a report goes by the counter as it was when the report was queued; both values are arbitrary.
 */
module TripRuns {
  import opened Ordered
  import opened TripBatching

  datatype Batch = Batch(distance: u32, interval: u32)

  datatype World = World(a: Adapter, counter: u32, modem: Batch, road: map<nat, nat>)

  const START := World(Adapter(map[], 0, 0, false, false), 0, Batch(0, 0), map[])

  /** `accepted` is the modem's answer to the command of a stop or a report. */
  datatype Move =
    | Travel(metres: nat)
    | Join(id: nat, distance: u32, interval: u32, started: bool, queryOk: bool)
    | Leave(id: nat, answer: u32, accepted: bool)
    | Report(value: u32, accepted: bool)

  /** Session ids are new when started and known when stopped; no distance reaches 2^32. */
  ghost predicate Legal(w: World, m: Move) {
    match m
    case Travel(d) => w.counter + d < WORD && forall id :: id in w.road ==> w.road[id] + d < WORD
    case Join(id, _, _, _, _) => id !in w.a.sessions
    case Leave(id, _, _) => id in w.a.sessions
    case Report(_, _) => true
  }

  ghost function Onward(road: map<nat, nat>, sessions: map<nat, TripSession>): map<nat, nat> {
    map id | id in sessions :: if id in road then road[id] else 0
  }

  /** The modem's batch after a command that it accepts or not. */
  ghost function Obey(modem: Batch, c: Command, accepted: bool): Batch {
    match c
    case NoCommand => modem
    case StopTrip => if accepted then Batch(0, 0) else modem
    case StartTrip(distance, interval) => if accepted then Batch(distance, interval) else modem
    case RestartTrip(distance, interval) => if accepted then Batch(distance, interval) else modem
  }

  ghost function CounterAfter(counter: u32, c: Command, accepted: bool): u32 {
    if (c.StartTrip? || c.RestartTrip?) && accepted then 0 else counter
  }

  ghost function QueryOf(w: World, m: Move): Query
    requires m.Join?
  {
    if m.queryOk then Counter(w.counter) else QueryFailed
  }

  /** The adapter and the command after a step. */
  ghost function Handled(w: World, m: Move): (Adapter, Command)
    requires Legal(w, m)
  {
    match m
    case Travel(_) => (w.a, NoCommand)
    case Join(id, distance, interval, started, _) => AfterStart(w.a, id, distance, interval, started, QueryOf(w, m))
    case Leave(id, answer, accepted) => AfterStop(w.a, id, answer, accepted)
    case Report(value, accepted) =>
      var (b, command, _) := AfterReport(w.a, value, accepted);
      (b, command)
  }

  /** Whether the modem does what it is told: on a join that restarts it, it does. */
  ghost predicate Accepts(w: World, m: Move)
    requires !m.Travel?
  {
    if m.Join? then w.a.sessions != map[] || m.started else m.accepted
  }

  ghost function Next(w: World, m: Move): World
    requires Legal(w, m)
  {
    if m.Travel? then w.(counter := w.counter + m.metres, road := map id | id in w.road :: w.road[id] + m.metres)
    else
      var (b, command) := Handled(w, m);
      World(b, CounterAfter(w.counter, command, Accepts(w, m)), Obey(w.modem, command, Accepts(w, m)),
            Onward(w.road, b.sessions))
  }

  /** The step restarts the modem's batch, and with it the counter. */
  ghost predicate Restarts(w: World, m: Move)
    requires Legal(w, m)
  {
    !m.Travel? && Handled(w, m).1.RestartTrip? && Accepts(w, m)
  }

  /** What a stop or a report takes for the counter. */
  ghost function Answer(m: Move): u32
    requires m.Leave? || m.Report?
  {
    if m.Leave? then m.answer else m.value
  }

  /** The distance of a trip as the adapter has it: carry-over and counter less snapshot. */
  ghost function Distance(w: World, id: nat): u32
    requires id in w.a.sessions
  {
    Recorded(w.a.sessions[id], w.counter)
  }

  // ----- the books of one session ---------------------------------------------------

  /** No more is recorded than was really travelled, and no more was reported than is recorded. */
  ghost predicate Sound(s: TripSession, counter: u32, road: nat) {
    && s.ongoingBatch <= counter
    && s.thisTrip <= s.onRestart + (counter - s.ongoingBatch) <= road < WORD
  }

  ghost predicate Inv(w: World) {
    && w.road.Keys == w.a.sessions.Keys
    && forall id :: id in w.a.sessions ==> Sound(w.a.sessions[id], w.counter, w.road[id])
  }

  lemma SoundRecords(s: TripSession, counter: u32, road: nat)
    requires Sound(s, counter, road)
    ensures Recorded(s, counter) == s.onRestart + (counter - s.ongoingBatch)
    ensures s.thisTrip <= Recorded(s, counter) <= road < WORD
    ensures Sound(CarriedOver(s), 0, road) && Recorded(CarriedOver(s), 0) == s.thisTrip
  {
    NoWrap(counter, s.ongoingBatch);
    NoWrap(s.onRestart, counter - s.ongoingBatch);
  }

  /** Going by a value that credits no more than there is keeps the books. */
  lemma SoundRebased(s: TripSession, counter: u32, road: nat, value: u32)
    requires Sound(s, counter, road) && Recorded(s, value) <= Recorded(s, counter)
    ensures Sound(Reported(s, value), counter, road)
    ensures Sound(Rebased(s, value), 0, road)
  {
    SoundRecords(s, counter, road);
  }

  /** A value that is not ahead of the counter nor, but for the carry-over, behind the snapshot; or wraps to less. */
  predicate Timely(s: TripSession, value: u32, counter: u32) {
    || (s.ongoingBatch <= value + s.onRestart && value <= counter)
    || value + s.onRestart >= WORD + s.ongoingBatch
  }

  /** What such a value makes of a session, in whole numbers. */
  lemma RecordedIs(s: TripSession, value: u32)
    ensures var r := value + s.onRestart - s.ongoingBatch;
            Recorded(s, value) == if r < 0 then r + WORD else if r >= WORD then r - WORD else r
  {
    NoWrap(value, s.ongoingBatch);
    NoWrap(s.onRestart, Sub32(value, s.ongoingBatch));
  }

  /** Exactly the timely values credit a trip with no more than it has. */
  lemma TimelyIff(s: TripSession, value: u32, counter: u32, road: nat)
    requires Sound(s, counter, road)
    ensures Recorded(s, value) <= Recorded(s, counter) <==> Timely(s, value, counter)
  {
    RecordedIs(s, value);
    RecordedIs(s, counter);
  }

  /** A restart keeps the distance of a session, whatever its books, exactly if it goes by the counter. */
  lemma RebasedKeepsIff(s: TripSession, value: u32, counter: u32)
    ensures Recorded(Rebased(s, value), 0) == Recorded(s, value)
    ensures Recorded(s, value) == Recorded(s, counter) <==> value == counter
  {
    RecordedIs(s, value);
    RecordedIs(s, counter);
    RecordedIs(Rebased(s, value), 0);
  }

  // ----- the report loop ----------------------------------------------------------

  ghost function DoneInOrder(sessions: map<nat, TripSession>, todo: set<nat>, counter: u32): seq<nat>
    requires todo <= sessions.Keys
    decreases |todo|
  {
    if todo == {} then [] else
      var id, rest := MinOf(todo), DoneInOrder(sessions, todo - {MinOf(todo)}, counter);
      if Completed(sessions[id], counter) then [id] + rest else rest
  }

  lemma {:induction false} DoneInOrderIs(sessions: map<nat, TripSession>, todo: set<nat>, counter: u32)
    requires todo <= sessions.Keys
    ensures var done := DoneInOrder(sessions, todo, counter);
            && StrictlyAscending(done)
            && forall id :: id in done <==> id in todo && Completed(sessions[id], counter)
    decreases |todo|
  {
    if todo != {} {
      var id, rest := MinOf(todo), DoneInOrder(sessions, todo - {MinOf(todo)}, counter);
      DoneInOrderIs(sessions, todo - {id}, counter);
      forall j | 0 <= j < |rest| ensures id < rest[j] {
        assert rest[j] in rest;
      }
    }
  }

  ghost predicate DropsInterval(o: map<nat, TripSession>, todo: set<nat>, counter: u32, interval: u32)
    requires todo <= o.Keys
  {
    exists id :: id in todo && Completed(o[id], counter) && o[id].tbfInterval == interval
  }

  ghost predicate DropsDistance(o: map<nat, TripSession>, todo: set<nat>, counter: u32, distance: u32)
    requires todo <= o.Keys
  {
    exists id :: id in todo && Completed(o[id], counter) && o[id].tripDistance == distance
  }

  /** The erase-while-iterating loop, in one go. */
  lemma {:induction false} SweepIs(w: Sweep, o: map<nat, TripSession>, todo: set<nat>, counter: u32,
                                   distance: u32, interval: u32)
    requires todo <= w.sessions.Keys && todo <= o.Keys
    requires forall id :: id in todo ==> w.sessions[id] == o[id]
    ensures var r := SweepAll(w, todo, counter, distance, interval);
            && r.completed == w.completed + DoneInOrder(o, todo, counter)
            && (forall id :: id in r.sessions <==>
                  id in w.sessions && !(id in todo && Completed(o[id], counter)))
            && (forall id :: id in r.sessions ==>
                  r.sessions[id] == if id in todo then Reported(o[id], counter) else w.sessions[id])
            && (r.intervalDropped <==> w.intervalDropped || DropsInterval(o, todo, counter, interval))
            && (r.distanceDropped <==> w.distanceDropped || DropsDistance(o, todo, counter, distance))
    decreases |todo|
  {
    if todo != {} {
      var id := MinOf(todo);
      var next := SweepOne(w, id, counter, distance, interval);
      SweepIs(next, o, todo - {id}, counter, distance, interval);
    }
  }

  /**
   An exact partition, whatever value is reported: the completed trips are, in id order, exactly
   those whose distance reached their own by that value, and every other is kept, strictly short
   of its own and brought up to date.
   */
  lemma ReportPartitions(w: World, value: u32, accepted: bool)
    ensures var completed, kept := AfterReport(w.a, value, accepted).2, Swept(w.a, value).sessions;
            && StrictlyAscending(completed)
            && (forall id :: id in completed <==>
                  id in w.a.sessions && w.a.sessions[id].tripDistance <= Recorded(w.a.sessions[id], value))
            && (forall id :: id in kept <==>
                  id in w.a.sessions && Recorded(w.a.sessions[id], value) < w.a.sessions[id].tripDistance)
            && (forall id :: id in kept ==> kept[id] == Reported(w.a.sessions[id], value))
  {
    hide AfterRestart, Recorded;
    SweepIs(Sweep(w.a.sessions, [], w.a.intervalDropped, w.a.distanceDropped), w.a.sessions, w.a.sessions.Keys,
            value, w.a.ongoingDistance, w.a.ongoingInterval);
    DoneInOrderIs(w.a.sessions, w.a.sessions.Keys, value);
  }

  // ----- what each move does to the sessions ----------------------------------------

  /** The sessions a join of a running modem batch leaves. */
  lemma JoinedSessions(a: Adapter, id: nat, distance: u32, interval: u32, query: Query)
    requires id !in a.sessions
    ensures var (b, command) := AfterJoin(a, id, distance, interval, query);
            var restarts := JoinPlan(a, distance, interval, query).restart;
            && (if restarts then command.RestartTrip? else command.NoCommand?)
            && b.sessions.Keys == a.sessions.Keys + (if query.Counter? then {id} else {})
            && (query.Counter? ==>
                  && b.sessions[id].ongoingBatch == (if restarts then 0 else query.value)
                  && b.sessions[id].onRestart == b.sessions[id].thisTrip == 0)
            && forall i :: i in a.sessions ==>
                 b.sessions[i] == if restarts then CarriedOver(a.sessions[i]) else a.sessions[i]
  {
    hide JoinPlan;
  }

  ghost predicate JoinRestarts(w: World, m: Move)
    requires m.Join?
  {
    w.a.sessions != map[] && JoinPlan(w.a, m.distance, m.interval, QueryOf(w, m)).restart
  }

  /** A join leaves the running trips as they are, unless it restarts the modem. */
  lemma JoinedIs(w: World, m: Move)
    requires Legal(w, m) && m.Join? && w.a.sessions != map[] && w.road.Keys == w.a.sessions.Keys
    ensures var next := Next(w, m);
            && next.counter == (if JoinRestarts(w, m) then 0 else w.counter)
            && next.a.sessions.Keys == next.road.Keys == w.a.sessions.Keys + (if m.queryOk then {m.id} else {})
            && (m.queryOk ==> && next.road[m.id] == 0
                              && next.a.sessions[m.id].ongoingBatch == next.counter
                              && next.a.sessions[m.id].onRestart == next.a.sessions[m.id].thisTrip == 0)
            && forall i :: i in w.a.sessions ==>
                 && next.road[i] == w.road[i]
                 && next.a.sessions[i] == if JoinRestarts(w, m) then CarriedOver(w.a.sessions[i]) else w.a.sessions[i]
  {
    JoinedSessions(w.a, m.id, m.distance, m.interval, QueryOf(w, m));
    hide JoinPlan, AfterJoin, CarriedOver, Obey;
  }

  /** A restart after a stop or a report rebases every session, or leaves every session as it is. */
  lemma RestartedIs(a: Adapter, value: u32, accepted: bool)
    ensures var (b, command) := AfterRestart(a, value, accepted);
            && !command.StartTrip? && (a.sessions == map[] <==> command.StopTrip?)
            && b.sessions == (if command.RestartTrip? && accepted then AllRebased(a.sessions, value) else a.sessions)
  {
    hide RestartPlan;
  }

  /** What a stop or a report makes of a trip that stays. */
  ghost function Stayed(w: World, m: Move, s: TripSession): TripSession
    requires Legal(w, m) && (m.Leave? || m.Report?)
  {
    if Restarts(w, m) then Rebased(s, Answer(m)) else if m.Report? then Reported(s, m.value) else s
  }

  lemma LeavingIs(w: World, m: Move)
    requires Legal(w, m) && m.Leave?
    ensures var b := Handled(w, m).0;
            && b.sessions.Keys == w.a.sessions.Keys - {m.id}
            && (Restarts(w, m) ==> w.a.sessions.Keys - {m.id} != {})
            && forall i :: i in b.sessions ==> b.sessions[i] == Stayed(w, m, w.a.sessions[i])
  {
    hide Rebased, RestartPlan;
    var s, left := w.a.sessions[m.id], w.a.sessions - {m.id};
    assert left.Keys == w.a.sessions.Keys - {m.id};
    RestartedIs(w.a.(sessions := left,
                     intervalDropped := w.a.intervalDropped || s.tbfInterval == w.a.ongoingInterval,
                     distanceDropped := w.a.distanceDropped || s.tripDistance == w.a.ongoingDistance),
                m.answer, m.accepted);
    hide AfterRestart;
  }

  lemma ReportingIs(w: World, m: Move)
    requires Legal(w, m) && m.Report?
    ensures var b := Handled(w, m).0;
            && b.sessions.Keys <= w.a.sessions.Keys
            && (Restarts(w, m) ==> b.sessions.Keys != {})
            && forall i :: i in b.sessions ==> b.sessions[i] == Stayed(w, m, w.a.sessions[i])
  {
    ReportPartitions(w, m.value, m.accepted);
    ReportedAgain(w, m.value);
    var sweep := Swept(w.a, m.value);
    hide Swept, AfterRestart, Rebased, Reported, Recorded;
    RestartedIs(w.a.(sessions := sweep.sessions, intervalDropped := sweep.intervalDropped,
                     distanceDropped := sweep.distanceDropped), m.value, m.accepted);
    assert sweep.sessions == map[] <==> sweep.sessions.Keys == {};
  }

  /** The trips that stay through a stop or a report. */
  lemma StayingIs(w: World, m: Move)
    requires Legal(w, m) && (m.Leave? || m.Report?) && w.road.Keys == w.a.sessions.Keys
    ensures var next := Next(w, m);
            && next.counter == (if Restarts(w, m) then 0 else w.counter)
            && next.road.Keys == next.a.sessions.Keys <= w.a.sessions.Keys
            && (Restarts(w, m) ==> next.a.sessions.Keys != {})
            && (m.Leave? ==> next.a.sessions.Keys == w.a.sessions.Keys - {m.id})
            && forall i :: i in next.a.sessions ==>
                 next.road[i] == w.road[i] && next.a.sessions[i] == Stayed(w, m, w.a.sessions[i])
  {
    if m.Leave? { LeavingIs(w, m); } else { ReportingIs(w, m); }
    NoStart(w, m);
    hide Handled, Stayed, Obey;
  }

  lemma NoStart(w: World, m: Move)
    requires Legal(w, m) && (m.Leave? || m.Report?)
    ensures !Handled(w, m).1.StartTrip?
  {
    hide RestartPlan, Swept;
  }

  /** Reporting a value first makes no difference to rebasing with it. */
  lemma ReportedAgain(w: World, value: u32)
    ensures forall i :: i in w.a.sessions ==>
              Rebased(Reported(w.a.sessions[i], value), value) == Rebased(w.a.sessions[i], value)
  {
  }

  // ----- which steps keep the books --------------------------------------------------

  /** The step goes by its answer for this trip. */
  ghost predicate Uses(w: World, m: Move, id: nat)
    requires Legal(w, m)
  {
    id in w.a.sessions && (m.Report? || (m.Leave? && id != m.id && Restarts(w, m)))
  }

  ghost predicate OnTime(w: World, m: Move)
    requires Legal(w, m)
  {
    forall id :: Uses(w, m, id) ==> Timely(w.a.sessions[id], Answer(m), w.counter)
  }

  /** No trip is credited with more than it has. */
  ghost predicate CreditsNoMore(w: World, m: Move)
    requires Legal(w, m)
  {
    forall id :: Uses(w, m, id) ==> Recorded(w.a.sessions[id], Answer(m)) <= Distance(w, id)
  }

  lemma OnTimeIff(w: World, m: Move)
    requires Inv(w) && Legal(w, m)
    ensures CreditsNoMore(w, m) <==> OnTime(w, m)
  {
    UsesKnown(w, m);
    hide Uses, Timely, Recorded, Sound;
    forall id | Uses(w, m, id) && id in w.a.sessions
      ensures Recorded(w.a.sessions[id], Answer(m)) <= Distance(w, id) <==>
              Timely(w.a.sessions[id], Answer(m), w.counter)
    {
      TimelyIff(w.a.sessions[id], Answer(m), w.counter, w.road[id]);
    }
  }

  lemma UsesKnown(w: World, m: Move)
    requires Legal(w, m)
    ensures forall id :: Uses(w, m, id) ==> id in w.a.sessions && (m.Leave? || m.Report?)
  {
  }

  lemma JoinKeeps(w: World, m: Move)
    requires Inv(w) && Legal(w, m) && m.Join?
    ensures Inv(Next(w, m))
  {
    if w.a.sessions != map[] {
      JoinedIs(w, m);
      hide Next, JoinRestarts, CarriedOver, Recorded;
      forall i | i in w.a.sessions ensures Sound(CarriedOver(w.a.sessions[i]), 0, w.road[i]) {
        SoundRecords(w.a.sessions[i], w.counter, w.road[i]);
      }
      hide Sound;
      assert m.queryOk ==> Sound(Next(w, m).a.sessions[m.id], Next(w, m).counter, 0) by {
        if m.queryOk { FreshIsSound(Next(w, m).a.sessions[m.id], Next(w, m).counter); }
      }
    }
  }

  lemma FreshIsSound(s: TripSession, counter: u32)
    requires s.ongoingBatch == counter && s.onRestart == s.thisTrip == 0
    ensures Sound(s, counter, 0)
  {
  }

  lemma AnswerKeeps(w: World, m: Move)
    requires Inv(w) && Legal(w, m) && (m.Leave? || m.Report?) && CreditsNoMore(w, m)
    ensures Inv(Next(w, m))
  {
    StayingIs(w, m);
    var next := Next(w, m);
    hide Next, Recorded, Sound, Rebased, Reported, Restarts;
    forall i | i in next.a.sessions ensures Sound(next.a.sessions[i], next.counter, w.road[i]) {
      if Uses(w, m, i) {
        SoundRebased(w.a.sessions[i], w.counter, w.road[i], Answer(m));
      }
    }
  }

  /** A step that goes by timely values keeps the books. */
  lemma StepKeeps(w: World, m: Move)
    requires Inv(w) && Legal(w, m) && OnTime(w, m)
    ensures Inv(Next(w, m))
  {
    if m.Join? {
      JoinKeeps(w, m);
    } else if !m.Travel? {
      hide Next, OnTime, CreditsNoMore;
      OnTimeIff(w, m);
      AnswerKeeps(w, m);
    }
  }

  // ----- runs ---------------------------------------------------------------------

  ghost predicate LegalRun(ms: seq<Move>)
    decreases |ms|, 0
  {
    ms == [] || (LegalRun(ms[..|ms| - 1]) && Legal(Run(ms[..|ms| - 1]), ms[|ms| - 1]))
  }

  ghost function Run(ms: seq<Move>): World
    requires LegalRun(ms)
    decreases |ms|, 1
  {
    if ms == [] then START else Next(Run(ms[..|ms| - 1]), ms[|ms| - 1])
  }

  ghost predicate OnTimeRun(ms: seq<Move>)
    requires LegalRun(ms)
  {
    ms != [] ==> OnTimeRun(ms[..|ms| - 1]) && OnTime(Run(ms[..|ms| - 1]), ms[|ms| - 1])
  }

  ghost predicate NeverCreditsMore(ms: seq<Move>)
    requires LegalRun(ms)
  {
    ms != [] ==> NeverCreditsMore(ms[..|ms| - 1]) && CreditsNoMore(Run(ms[..|ms| - 1]), ms[|ms| - 1])
  }

  /** Every report, and every answer that restarts the modem, is the counter as it is. */
  ghost predicate Answered(ms: seq<Move>)
    requires LegalRun(ms)
  {
    ms != [] ==> Answered(ms[..|ms| - 1]) && AnswersCounter(Run(ms[..|ms| - 1]), ms[|ms| - 1])
  }

  ghost predicate AnswersCounter(w: World, m: Move)
    requires Legal(w, m)
  {
    (m.Report? || (m.Leave? && Restarts(w, m))) ==> Answer(m) == w.counter
  }

  /** In runs that go by timely values only, no trip ever has more than was really travelled. */
  lemma {:induction false} RunKeeps(ms: seq<Move>)
    requires LegalRun(ms) && OnTimeRun(ms)
    ensures Inv(Run(ms))
  {
    if ms != [] {
      RunKeeps(ms[..|ms| - 1]);
      hide Next, Legal, OnTime;
      StepKeeps(Run(ms[..|ms| - 1]), ms[|ms| - 1]);
    }
  }

  /** And these are exactly the runs in which no trip is ever credited with more than it has. */
  lemma {:induction false} OnTimeRunIff(ms: seq<Move>)
    requires LegalRun(ms)
    ensures NeverCreditsMore(ms) <==> OnTimeRun(ms)
  {
    if ms != [] {
      var before := ms[..|ms| - 1];
      OnTimeRunIff(before);
      if OnTimeRun(before) {
        RunKeeps(before);
        hide Run, Legal, OnTime, CreditsNoMore;
        OnTimeIff(Run(before), ms[|ms| - 1]);
      }
    }
  }

  lemma AnsweredIsOnTime(w: World, m: Move)
    requires Inv(w) && Legal(w, m) && AnswersCounter(w, m)
    ensures OnTime(w, m)
  {
  }

  /** So are the runs in which reports and restarting stops are answered with the counter. */
  lemma {:induction false} AnsweredRunsAreOnTime(ms: seq<Move>)
    requires LegalRun(ms) && Answered(ms)
    ensures OnTimeRun(ms)
  {
    if ms != [] {
      var before := ms[..|ms| - 1];
      AnsweredRunsAreOnTime(before);
      RunKeeps(before);
      hide Run, Legal, OnTime, AnswersCounter;
      AnsweredIsOnTime(Run(before), ms[|ms| - 1]);
    }
  }

  // ----- what a run guarantees ----------------------------------------------------

  lemma ReportIsEarned(w: World, value: u32, accepted: bool)
    requires Inv(w) && OnTime(w, Report(value, accepted))
    ensures forall id :: id in AfterReport(w.a, value, accepted).2 ==>
              id in w.a.sessions && w.a.sessions[id].tripDistance <= w.road[id]
  {
    hide OnTime, AfterReport, Recorded;
    OnTimeIff(w, Report(value, accepted));
    ReportPartitions(w, value, accepted);
    forall id | id in w.a.sessions ensures Recorded(w.a.sessions[id], value) <= w.road[id] {
      assert Uses(w, Report(value, accepted), id);
      SoundRecords(w.a.sessions[id], w.counter, w.road[id]);
    }
  }

  /**
   After every run that goes by timely values, whatever the joins, stops, reports and restarts, a
   trip that a timely report completes has really travelled its distance.
   */
  lemma {:induction false} NoEarlyCompletion(ms: seq<Move>)
    requires LegalRun(ms) && OnTimeRun(ms)
    ensures forall value: u32, accepted, id ::
              OnTime(Run(ms), Report(value, accepted)) && id in AfterReport(Run(ms).a, value, accepted).2 ==>
              id in Run(ms).a.sessions && id in Run(ms).road
              && Run(ms).a.sessions[id].tripDistance <= Run(ms).road[id]
  {
    RunKeeps(ms);
    var w := Run(ms);
    hide Run, OnTime, AfterReport;
    forall value: u32, accepted | OnTime(w, Report(value, accepted))
      ensures forall id :: id in AfterReport(w.a, value, accepted).2 ==>
                id in w.a.sessions && w.a.sessions[id].tripDistance <= w.road[id]
    {
      ReportIsEarned(w, value, accepted);
    }
  }

  /**
   A stop or a report keeps the distance of a trip that stays, in any state, exactly if it does
   not restart the modem or goes by the counter.
   */
  lemma RestartKeepsDistanceIff(w: World, m: Move, id: nat)
    requires Legal(w, m) && (m.Leave? || m.Report?) && w.road.Keys == w.a.sessions.Keys
    requires id in Next(w, m).a.sessions
    ensures id in w.a.sessions
    ensures Distance(Next(w, m), id) == Distance(w, id) <==> (!Restarts(w, m) || Answer(m) == w.counter)
  {
    StayingIs(w, m);
    RebasedKeepsIff(w.a.sessions[id], Answer(m), w.counter);
    ReportKeepsRecord(w.a.sessions[id], Answer(m), w.counter);
    hide Next, Restarts, Recorded, Rebased, Reported;
  }

  lemma ReportKeepsRecord(s: TripSession, value: u32, counter: u32)
    ensures Recorded(Reported(s, value), counter) == Recorded(s, counter)
  {
  }

  /**
   A join keeps the recorded distance of a running trip exactly when it does not restart the
   modem or that trip had nothing unreported: the carry-over is the last reported distance.
   */
  lemma JoinKeepsDistanceIff(w: World, m: Move, id: nat)
    requires Inv(w) && Legal(w, m) && m.Join? && id in w.a.sessions
    ensures id in Next(w, m).a.sessions
    ensures Distance(Next(w, m), id) <= Distance(w, id)
    ensures Distance(Next(w, m), id) == Distance(w, id)
            <==> (!JoinRestarts(w, m) || w.a.sessions[id].thisTrip == Distance(w, id))
  {
    JoinedIs(w, m);
    SoundRecords(w.a.sessions[id], w.counter, w.road[id]);
    hide Next, JoinRestarts, Recorded, CarriedOver;
  }

  /** Every trip that stays through the step keeps its distance. */
  ghost predicate KeepsDistances(w: World, m: Move)
    requires Legal(w, m)
  {
    m.Leave? || m.Report? ==>
      forall id :: id in Next(w, m).a.sessions && id in w.a.sessions ==> Distance(Next(w, m), id) == Distance(w, id)
  }

  ghost predicate AlwaysKeepsDistances(ms: seq<Move>)
    requires LegalRun(ms)
  {
    ms != [] ==> AlwaysKeepsDistances(ms[..|ms| - 1]) && KeepsDistances(Run(ms[..|ms| - 1]), ms[|ms| - 1])
  }

  ghost predicate RestartsByCounter(w: World, m: Move)
    requires Legal(w, m)
  {
    (m.Leave? || m.Report?) && Restarts(w, m) ==> Answer(m) == w.counter
  }

  ghost predicate AlwaysRestartsByCounter(ms: seq<Move>)
    requires LegalRun(ms)
  {
    ms != [] ==> AlwaysRestartsByCounter(ms[..|ms| - 1]) && RestartsByCounter(Run(ms[..|ms| - 1]), ms[|ms| - 1])
  }

  lemma StepKeepsDistancesIff(w: World, m: Move)
    requires Legal(w, m) && w.road.Keys == w.a.sessions.Keys
    ensures KeepsDistances(w, m) <==> RestartsByCounter(w, m)
    ensures Next(w, m).road.Keys == Next(w, m).a.sessions.Keys
  {
    if m.Leave? || m.Report? {
      StayingIs(w, m);
      var next := Next(w, m);
      hide Next, Restarts, Distance;
      forall id | id in next.a.sessions
        ensures Distance(next, id) == Distance(w, id) <==> (!Restarts(w, m) || Answer(m) == w.counter)
      {
        RestartKeepsDistanceIff(w, m, id);
      }
      if Restarts(w, m) {
        var some :| some in next.a.sessions;
      }
    }
  }

  /**
   Over all runs: stops and reports keep the distance of every trip that stays if and only if
   every restart of the modem goes by the counter.
   */
  lemma {:induction false} DistancesKeptIff(ms: seq<Move>)
    requires LegalRun(ms)
    ensures AlwaysKeepsDistances(ms) <==> AlwaysRestartsByCounter(ms)
    ensures Run(ms).road.Keys == Run(ms).a.sessions.Keys
  {
    if ms != [] {
      DistancesKeptIff(ms[..|ms| - 1]);
      hide Next, Legal, KeepsDistances, RestartsByCounter;
      StepKeepsDistancesIff(Run(ms[..|ms| - 1]), ms[|ms| - 1]);
    }
  }

  // ----- when the adapter knows the real distance --------------------------------------

  /** Every trip's distance is what was really travelled. */
  ghost predicate Real(w: World) {
    w.road.Keys == w.a.sessions.Keys && forall id :: id in w.a.sessions ==> Distance(w, id) == w.road[id]
  }

  /** A join does not restart the modem while something is unreported; a restart goes by the counter. */
  ghost predicate LosesNothing(w: World, m: Move)
    requires Legal(w, m)
  {
    && RestartsByCounter(w, m)
    && (m.Join? && JoinRestarts(w, m) ==>
          forall id :: id in w.a.sessions ==> w.a.sessions[id].thisTrip == Distance(w, id))
  }

  lemma TravelIsReal(w: World, m: Move)
    requires Inv(w) && Legal(w, m) && m.Travel? && Real(w)
    ensures Real(Next(w, m))
  {
    var next := Next(w, m);
    assert next.a == w.a && next.counter == w.counter + m.metres;
    hide Next, Recorded;
    forall id | id in w.a.sessions ensures Distance(next, id) == w.road[id] + m.metres {
      RecordedIs(w.a.sessions[id], w.counter);
      RecordedIs(w.a.sessions[id], w.counter + m.metres);
    }
  }

  lemma JoinIsRealIff(w: World, m: Move)
    requires Inv(w) && Legal(w, m) && m.Join? && Real(w)
    ensures Real(Next(w, m)) <==> LosesNothing(w, m)
  {
    var next := Next(w, m);
    if w.a.sessions == map[] {
    } else {
      JoinedIs(w, m);
      hide Next, JoinRestarts, CarriedOver;
      if m.queryOk {
        RecordedIs(next.a.sessions[m.id], next.counter);
      }
      hide Distance, Recorded;
      forall id | id in w.a.sessions
        ensures Distance(next, id) == w.road[id] <==>
                (!JoinRestarts(w, m) || w.a.sessions[id].thisTrip == Distance(w, id))
      {
        JoinKeepsDistanceIff(w, m, id);
      }
      DistanceIs(next);
    }
  }

  lemma DistanceIs(w: World)
    ensures forall id :: id in w.a.sessions ==> Distance(w, id) == Recorded(w.a.sessions[id], w.counter)
  {
  }

  lemma StepIsRealIff(w: World, m: Move)
    requires Inv(w) && Legal(w, m) && Real(w)
    ensures Real(Next(w, m)) <==> LosesNothing(w, m)
  {
    if m.Travel? {
      TravelIsReal(w, m);
    } else if m.Join? {
      JoinIsRealIff(w, m);
    } else {
      StayingIs(w, m);
      StepKeepsDistancesIff(w, m);
      hide Next, Distance, Restarts;
    }
  }

  ghost predicate AlwaysReal(ms: seq<Move>)
    requires LegalRun(ms)
  {
    Real(Run(ms)) && (ms != [] ==> AlwaysReal(ms[..|ms| - 1]))
  }

  ghost predicate NeverLoses(ms: seq<Move>)
    requires LegalRun(ms)
  {
    ms != [] ==> NeverLoses(ms[..|ms| - 1]) && LosesNothing(Run(ms[..|ms| - 1]), ms[|ms| - 1])
  }

  /**
   In runs that go by timely values, every trip's distance is in every state the one really
   travelled, if and only if no join restarts the modem while something is unreported and every
   other restart goes by the counter.
   */
  lemma {:induction false} DistanceIsRealIff(ms: seq<Move>)
    requires LegalRun(ms) && OnTimeRun(ms)
    ensures AlwaysReal(ms) <==> NeverLoses(ms)
  {
    if ms != [] {
      var before := ms[..|ms| - 1];
      DistanceIsRealIff(before);
      RunKeeps(before);
      hide Next, Legal, LosesNothing, Inv, Real;
      if AlwaysReal(before) {
        RealNow(before);
        StepIsRealIff(Run(before), ms[|ms| - 1]);
      }
    }
  }

  lemma RealNow(ms: seq<Move>)
    requires LegalRun(ms) && AlwaysReal(ms)
    ensures Real(Run(ms))
  {
  }
}
