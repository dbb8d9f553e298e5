/**
 The trip batching multiplexer: many trips share one distance counter in the modem, and
 the counter starts again from zero whenever the modem batch is restarted.

 The modem's answers arrive before the next command is handled, so each handler takes them
 as arguments.  Distances and intervals are 32-bit unsigned and wrap.
 */
module TripBatching {
  import opened Ordered

  const WORD := 0x1_0000_0000

  type u32 = x: nat | x < WORD

  function Add32(a: u32, b: u32): u32 { (a + b) % WORD }

  function Sub32(a: u32, b: u32): u32 { (a - b) % WORD }

  lemma NoWrap(a: u32, b: u32)
    ensures a + b < WORD ==> Add32(a, b) == a + b
    ensures b <= a ==> Sub32(a, b) == a - b
    ensures a < b ==> Sub32(a, b) == WORD + a - b
  {
  }

  datatype TripSession = TripSession(
    ongoingBatch: u32,  // the counter when the session last started counting from it
    thisTrip: u32,      // the distance of this trip at the last report
    onRestart: u32,     // the distance carried over from before the last restart
    tripDistance: u32,
    tbfInterval: u32)

  datatype Command =
    | NoCommand
    | StartTrip(distance: u32, interval: u32)
    | RestartTrip(distance: u32, interval: u32)
    | StopTrip

  datatype Adapter = Adapter(
    sessions: map<nat, TripSession>,
    ongoingDistance: u32,
    ongoingInterval: u32,
    intervalDropped: bool,
    distanceDropped: bool)

  // ----- a session and the counter ------------------------------------------------

  /** The distance of a trip when the counter shows `counter`. */
  function Recorded(s: TripSession, counter: u32): u32 {
    Add32(s.onRestart, Sub32(counter, s.ongoingBatch))
  }

  function Reported(s: TripSession, counter: u32): TripSession {
    s.(thisTrip := Recorded(s, counter))
  }

  predicate Completed(s: TripSession, counter: u32) {
    s.tripDistance <= Recorded(s, counter)
  }

  /** What a restart that keeps the books does to a session. */
  function Rebased(s: TripSession, counter: u32): TripSession {
    s.(thisTrip := Recorded(s, counter), ongoingBatch := 0, onRestart := Recorded(s, counter))
  }

  /** What a restart on a join does: the carry-over is the last reported distance. */
  function CarriedOver(s: TripSession): TripSession {
    s.(ongoingBatch := 0, onRestart := s.thisTrip)
  }

  ghost function AllRebased(sessions: map<nat, TripSession>, counter: u32): map<nat, TripSession> {
    map id | id in sessions :: Rebased(sessions[id], counter)
  }

  ghost function AllCarriedOver(sessions: map<nat, TripSession>): map<nat, TripSession> {
    map id | id in sessions :: CarriedOver(sessions[id])
  }

  // ----- the loops, as functions --------------------------------------------------

  datatype Sweep = Sweep(
    sessions: map<nat, TripSession>,
    completed: seq<nat>,
    intervalDropped: bool,
    distanceDropped: bool)

  /** One round of the report loop. */
  ghost function SweepOne(w: Sweep, id: nat, counter: u32, distance: u32, interval: u32): Sweep
    requires id in w.sessions
  {
    var s := w.sessions[id];
    if Completed(s, counter)
    then Sweep(w.sessions - {id}, w.completed + [id],
               w.intervalDropped || s.tbfInterval == interval,
               w.distanceDropped || s.tripDistance == distance)
    else w.(sessions := w.sessions[id := Reported(s, counter)])
  }

  ghost function SweepAll(w: Sweep, todo: set<nat>, counter: u32, distance: u32, interval: u32): Sweep
    requires todo <= w.sessions.Keys
    decreases |todo|
  {
    if todo == {} then w else
      var id := MinOf(todo);
      SweepAll(SweepOne(w, id, counter, distance, interval), todo - {id}, counter, distance, interval)
  }

  /** What remains of each trip, by the unsigned subtraction. */
  ghost function Remainders(sessions: map<nat, TripSession>): map<nat, u32> {
    map id | id in sessions :: Sub32(sessions[id].tripDistance, sessions[id].thisTrip)
  }

  ghost function Intervals(sessions: map<nat, TripSession>): map<nat, u32> {
    map id | id in sessions :: sessions[id].tbfInterval
  }

  ghost function Smallest(values: map<nat, u32>): u32 {
    LoopMin(values)
  }

  // ----- what each handler does ---------------------------------------------------

  datatype Plan = Plan(restart: bool, distance: u32, interval: u32)

  /** Whether the modem batch must be restarted, and with what. */
  function PlanFor(a: Adapter, minRemaining: u32, minInterval: u32, counter: u32): Plan {
    var left := Sub32(a.ongoingDistance, counter);
    var (byDistance, distance) :=
      if !a.distanceDropped && left != 0
      then (if minRemaining < left then (true, minRemaining) else (false, a.ongoingDistance))
      else if minRemaining != 0 then (true, minRemaining) else (false, a.ongoingDistance);
    var byInterval := minInterval < a.ongoingInterval || (minInterval != a.ongoingInterval && a.intervalDropped);
    Plan(byDistance || byInterval, distance, if byInterval then minInterval else a.ongoingInterval)
  }

  ghost function RestartPlan(a: Adapter, counter: u32): Plan {
    PlanFor(a, Smallest(Remainders(a.sessions)), Smallest(Intervals(a.sessions)), counter)
  }

  ghost function AfterRestart(a: Adapter, counter: u32, restarted: bool): (Adapter, Command) {
    if a.sessions == map[] then (a.(ongoingDistance := 0, ongoingInterval := 0), StopTrip) else
      var plan := RestartPlan(a, counter);
      if !plan.restart then (a, NoCommand)
      else (if restarted
            then a.(sessions := AllRebased(a.sessions, counter),
                    ongoingDistance := plan.distance, ongoingInterval := plan.interval)
            else a,
            RestartTrip(plan.distance, plan.interval))
  }

  ghost function Swept(a: Adapter, counter: u32): Sweep {
    SweepAll(Sweep(a.sessions, [], a.intervalDropped, a.distanceDropped), a.sessions.Keys, counter,
             a.ongoingDistance, a.ongoingInterval)
  }

  ghost function AfterReport(a: Adapter, counter: u32, restarted: bool): (Adapter, Command, seq<nat>) {
    var w := Swept(a, counter);
    var b := a.(sessions := w.sessions, intervalDropped := w.intervalDropped, distanceDropped := w.distanceDropped);
    if w.completed == [] then (b, NoCommand, []) else
      var (c, command) := AfterRestart(b, counter, restarted);
      (c, command, w.completed)
  }

  /** The modem's answer to a query for its counter. */
  datatype Query = QueryFailed | Counter(value: u32)

  ghost function AfterFirstStart(a: Adapter, id: nat, distance: u32, interval: u32, started: bool): (Adapter, Command) {
    (if started
     then a.(sessions := map[id := TripSession(0, 0, 0, distance, interval)],
             ongoingDistance := distance, ongoingInterval := interval)
     else a.(sessions := map[]),
     StartTrip(distance, interval))
  }

  /** The distance a join would leave the modem with, and whether it needs a restart. */
  function JoinPlan(a: Adapter, distance: u32, interval: u32, query: Query): Plan {
    var faster := a.ongoingInterval > interval;
    var nextInterval := if faster then interval else a.ongoingInterval;
    match query
    case QueryFailed =>
      if distance < a.ongoingDistance then Plan(true, distance, nextInterval)
      else Plan(faster, a.ongoingDistance, nextInterval)
    case Counter(counter) =>
      var left := Sub32(a.ongoingDistance, counter);
      if distance < left then Plan(true, distance, nextInterval)
      else Plan(faster, if faster then left else a.ongoingDistance, nextInterval)
  }

  ghost function AfterJoin(a: Adapter, id: nat, distance: u32, interval: u32, query: Query): (Adapter, Command) {
    var joined := match query
      case QueryFailed => a.sessions
      case Counter(counter) => a.sessions[id := TripSession(counter, 0, 0, distance, interval)];
    var plan := JoinPlan(a, distance, interval, query);
    if plan.restart
    then (a.(sessions := AllCarriedOver(joined),
             ongoingDistance := plan.distance, ongoingInterval := plan.interval),
          RestartTrip(plan.distance, plan.interval))
    else (a.(sessions := joined), NoCommand)
  }

  ghost function AfterStart(a: Adapter, id: nat, distance: u32, interval: u32, started: bool, query: Query)
    : (Adapter, Command)
  {
    if a.sessions == map[] then AfterFirstStart(a, id, distance, interval, started)
    else AfterJoin(a, id, distance, interval, query)
  }

  ghost function AfterStop(a: Adapter, id: nat, counter: u32, restarted: bool): (Adapter, Command)
    requires id in a.sessions
  {
    var s := a.sessions[id];
    var b := a.(sessions := a.sessions - {id},
                intervalDropped := a.intervalDropped || s.tbfInterval == a.ongoingInterval,
                distanceDropped := a.distanceDropped || s.tripDistance == a.ongoingDistance);
    if b.sessions == map[] then (b.(ongoingDistance := 0, ongoingInterval := 0), StopTrip)
    else AfterRestart(b, counter, restarted)
  }

  // ----- the adapter, in place ----------------------------------------------------

  class BatchingAdapter {
    var mTripSessions: map<nat, TripSession>
    var mOngoingTripDistance: u32
    var mOngoingTripTBFInterval: u32
    var mTripWithOngoingTBFDropped: bool
    var mTripWithOngoingTripDistanceDropped: bool

    ghost function View(): Adapter
      reads this
    {
      Adapter(mTripSessions, mOngoingTripDistance, mOngoingTripTBFInterval,
              mTripWithOngoingTBFDropped, mTripWithOngoingTripDistanceDropped)
    }

    constructor ()
      ensures View() == Adapter(map[], 0, 0, false, false)
    {
      mTripSessions := map[];
      mOngoingTripDistance, mOngoingTripTBFInterval := 0, 0;
      mTripWithOngoingTBFDropped, mTripWithOngoingTripDistanceDropped := false, false;
    }

    /** `started` answers the first start; `query` answers the counter query of a join. */
    method StartTripBatchingMultiplex(id: nat, minDistance: u32, minInterval: u32, started: bool, query: Query)
      returns (command: Command)
      modifies this
      ensures (View(), command) == AfterStart(old(View()), id, minDistance, minInterval, started, query)
    {
      if mTripSessions == map[] {
        mTripSessions := mTripSessions[id := TripSession(0, 0, 0, minDistance, minInterval)];
        command := StartTrip(minDistance, minInterval);
        if started {
          mOngoingTripDistance := minDistance;
          mOngoingTripTBFInterval := minInterval;
          assert mTripSessions == map[id := TripSession(0, 0, 0, minDistance, minInterval)];
        } else {
          mTripSessions := mTripSessions - {id};
          assert mTripSessions == map[];
        }
        return;
      }
      var ongoingTripDistance, ongoingTripInterval := mOngoingTripDistance, mOngoingTripTBFInterval;
      var needsRestart := false;
      if ongoingTripInterval > minInterval {
        ongoingTripInterval := minInterval;
        needsRestart := true;
      }
      match query {
        case QueryFailed =>
          if minDistance < ongoingTripDistance {
            ongoingTripDistance := minDistance;
            needsRestart := true;
          }
        case Counter(counter) =>
          var remaining := Sub32(ongoingTripDistance, counter);
          if minDistance < remaining {
            ongoingTripDistance := minDistance;
            needsRestart := true;
          } else if needsRestart {
            ongoingTripDistance := remaining;
          }
          mTripSessions := mTripSessions[id := TripSession(counter, 0, 0, minDistance, minInterval)];
      }
      command := NoCommand;
      if needsRestart {
        mOngoingTripDistance := ongoingTripDistance;
        mOngoingTripTBFInterval := ongoingTripInterval;
        CarryOverAll();
        command := RestartTrip(ongoingTripDistance, ongoingTripInterval);
      }
    }

    /** The loop of a join that needs a restart. */
    method CarryOverAll()
      modifies this`mTripSessions
      ensures mTripSessions == AllCarriedOver(old(mTripSessions))
    {
      ghost var before := mTripSessions;
      var todo := mTripSessions.Keys;
      while todo != {}
        invariant mTripSessions.Keys == before.Keys && todo <= before.Keys
        invariant forall i :: i in before ==>
                    mTripSessions[i] == if i in todo then before[i] else CarriedOver(before[i])
        decreases todo
      {
        var itt := MinOf(todo);
        var s := mTripSessions[itt];
        s := s.(ongoingBatch := 0);
        s := s.(onRestart := s.thisTrip);
        mTripSessions := mTripSessions[itt := s];
        todo := todo - {itt};
      }
    }

    /** Stopping a trip; the last one to stop also stops the modem batch. */
    method StopTripBatchingMultiplex(id: nat, counter: u32, restarted: bool) returns (command: Command)
      requires id in mTripSessions
      modifies this
      ensures (View(), command) == AfterStop(old(View()), id, counter, restarted)
    {
      var tripSess := mTripSessions[id];
      if tripSess.tbfInterval == mOngoingTripTBFInterval {
        mTripWithOngoingTBFDropped := true;
      }
      if tripSess.tripDistance == mOngoingTripDistance {
        mTripWithOngoingTripDistanceDropped := true;
      }
      mTripSessions := mTripSessions - {id};
      if mTripSessions == map[] {
        mOngoingTripDistance := 0;
        mOngoingTripTBFInterval := 0;
        command := StopTrip;
      } else {
        command := RestartTripBatching(true, 0, counter, restarted);
      }
    }

    /** `queried` answers the counter query, `restarted` the restart if there is one. */
    method RestartTripBatching(query: bool, accDist: u32, queried: u32, restarted: bool) returns (command: Command)
      modifies this
      ensures (View(), command) == AfterRestart(old(View()), if query then queried else accDist, restarted)
    {
      if mTripSessions == map[] {
        mOngoingTripDistance := 0;
        mOngoingTripTBFInterval := 0;
        return StopTrip;
      }
      hide Smallest;
      var minRemainingDistance, minTBFInterval := FindMinima();
      var accumulatedDistance := if query then queried else accDist;
      var needsRestart := false;
      var ongoingTripDistance, ongoingTripInterval := mOngoingTripDistance, mOngoingTripTBFInterval;
      if !mTripWithOngoingTripDistanceDropped && Sub32(ongoingTripDistance, accumulatedDistance) != 0 {
        if minRemainingDistance < Sub32(ongoingTripDistance, accumulatedDistance) {
          ongoingTripDistance := minRemainingDistance;
          needsRestart := true;
        }
      } else if minRemainingDistance != 0 {
        ongoingTripDistance := minRemainingDistance;
        needsRestart := true;
      }
      if minTBFInterval < ongoingTripInterval || (minTBFInterval != ongoingTripInterval && mTripWithOngoingTBFDropped) {
        ongoingTripInterval := minTBFInterval;
        needsRestart := true;
      }
      command := NoCommand;
      if needsRestart {
        command := RestartTrip(ongoingTripDistance, ongoingTripInterval);
        if restarted {
          RebaseAll(accumulatedDistance);
          mOngoingTripDistance := ongoingTripDistance;
          mOngoingTripTBFInterval := ongoingTripInterval;
        }
      }
    }

    /** The smallest remaining distance and interval, with zero for "none yet". */
    method FindMinima() returns (minRemainingDistance: u32, minTBFInterval: u32)
      ensures minRemainingDistance == Smallest(Remainders(mTripSessions))
      ensures minTBFInterval == Smallest(Intervals(mTripSessions))
    {
      minRemainingDistance, minTBFInterval := 0, 0;
      ghost var remainders, intervals := Remainders(mTripSessions), Intervals(mTripSessions);
      var todo := mTripSessions.Keys;
      assert remainders.Keys == todo && intervals.Keys == todo;
      while todo != {}
        invariant todo <= mTripSessions.Keys
        invariant SentinelMin(minRemainingDistance, InOrder(remainders, todo)) == LoopMin(remainders)
        invariant SentinelMin(minTBFInterval, InOrder(intervals, todo)) == LoopMin(intervals)
        decreases todo
      {
        var itt := MinOf(todo);
        var s := mTripSessions[itt];
        if minRemainingDistance == 0 || minRemainingDistance > Sub32(s.tripDistance, s.thisTrip) {
          minRemainingDistance := Sub32(s.tripDistance, s.thisTrip);
        }
        if minTBFInterval == 0 || minTBFInterval > s.tbfInterval {
          minTBFInterval := s.tbfInterval;
        }
        todo := todo - {itt};
      }
    }

    /** The loop that runs when a restart succeeded. */
    method RebaseAll(accumulatedDistance: u32)
      modifies this`mTripSessions
      ensures mTripSessions == AllRebased(old(mTripSessions), accumulatedDistance)
    {
      ghost var before := mTripSessions;
      var todo := mTripSessions.Keys;
      while todo != {}
        invariant mTripSessions.Keys == before.Keys && todo <= before.Keys
        invariant forall i :: i in before ==>
                    mTripSessions[i] == if i in todo then before[i] else Rebased(before[i], accumulatedDistance)
        decreases todo
      {
        var itt := MinOf(todo);
        var s := mTripSessions[itt];
        s := s.(thisTrip := Add32(s.onRestart, Sub32(accumulatedDistance, s.ongoingBatch)));
        s := s.(ongoingBatch := 0);
        s := s.(onRestart := s.thisTrip);
        mTripSessions := mTripSessions[itt := s];
        todo := todo - {itt};
      }
    }

    /** The modem reports its counter: some trips may be complete. */
    method ReportCompletedTrips(accumulatedDistance: u32, restarted: bool)
      returns (command: Command, completedTrips: seq<nat>)
      modifies this
      ensures (View(), command, completedTrips) == AfterReport(old(View()), accumulatedDistance, restarted)
    {
      completedTrips := [];
      ghost var distance, interval := mOngoingTripDistance, mOngoingTripTBFInterval;
      var todo := mTripSessions.Keys;
      while todo != {}
        invariant todo <= mTripSessions.Keys
        invariant mOngoingTripDistance == distance && mOngoingTripTBFInterval == interval
        invariant SweepAll(Sweep(mTripSessions, completedTrips, mTripWithOngoingTBFDropped,
                                 mTripWithOngoingTripDistanceDropped),
                           todo, accumulatedDistance, distance, interval)
                  == Swept(old(View()), accumulatedDistance)
        decreases todo
      {
        var itt := MinOf(todo);
        var tripSession := mTripSessions[itt];
        tripSession := tripSession.(thisTrip :=
          Add32(tripSession.onRestart, Sub32(accumulatedDistance, tripSession.ongoingBatch)));
        if tripSession.tripDistance <= tripSession.thisTrip {
          completedTrips := completedTrips + [itt];
          mTripSessions := mTripSessions - {itt};
          if tripSession.tbfInterval == mOngoingTripTBFInterval {
            mTripWithOngoingTBFDropped := true;
          }
          if tripSession.tripDistance == mOngoingTripDistance {
            mTripWithOngoingTripDistanceDropped := true;
          }
        } else {
          mTripSessions := mTripSessions[itt := tripSession];
        }
        todo := todo - {itt};
      }
      if completedTrips != [] {
        command := RestartTripBatching(false, accumulatedDistance, 0, restarted);
      } else {
        command := NoCommand;
      }
    }
  }
}
