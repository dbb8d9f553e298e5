/**
 How far the modem goes.  A batch should be over no later than any running trip reaches its own
 distance: with what distance the modem is restarted, when it is, and when that is too far.
 */
module TripTargets {
  import opened Ordered
  import opened TripBatching
  import opened TripIntervals
  import opened TripRuns

  // ----- what a stop or a report leaves ---------------------------------------------

  /** The trips that are left when the modem is reconsidered: a report has brought them up to date. */
  ghost function Kept(w: World, m: Move): map<nat, TripSession>
    requires m.Leave? || m.Report?
  {
    if m.Leave? then w.a.sessions - {m.id} else
      map id | id in w.a.sessions && Recorded(w.a.sessions[id], m.value) < w.a.sessions[id].tripDistance ::
        Reported(w.a.sessions[id], m.value)
  }

  /** A trip with the ongoing distance is gone, now or earlier. */
  ghost predicate DistanceGone(w: World, m: Move)
    requires m.Leave? || m.Report?
  {
    w.a.distanceDropped || exists id ::
      id in w.a.sessions && id !in Kept(w, m) && w.a.sessions[id].tripDistance == w.a.ongoingDistance
  }

  ghost predicate IntervalGone(w: World, m: Move)
    requires m.Leave? || m.Report?
  {
    w.a.intervalDropped || exists id ::
      id in w.a.sessions && id !in Kept(w, m) && w.a.sessions[id].tbfInterval == w.a.ongoingInterval
  }

  /** What the batch still has to go at the answer, by the unsigned subtraction. */
  ghost function Left(w: World, m: Move): u32
    requires m.Leave? || m.Report?
  {
    Sub32(w.a.ongoingDistance, Answer(m))
  }

  ghost function Seen(w: World, m: Move): Adapter
    requires m.Leave? || m.Report?
  {
    w.a.(sessions := Kept(w, m), distanceDropped := DistanceGone(w, m), intervalDropped := IntervalGone(w, m))
  }

  lemma LeaveSeen(w: World, m: Move)
    requires Legal(w, m) && m.Leave?
    ensures Handled(w, m) == AfterRestart(Seen(w, m), m.answer, m.accepted)
  {
    var s := w.a.sessions[m.id];
    assert forall id :: id in w.a.sessions && id !in Kept(w, m) <==> id == m.id;
    hide AfterRestart;
    var b := w.a.(sessions := w.a.sessions - {m.id},
                  intervalDropped := w.a.intervalDropped || s.tbfInterval == w.a.ongoingInterval,
                  distanceDropped := w.a.distanceDropped || s.tripDistance == w.a.ongoingDistance);
    assert b == Seen(w, m);
    RestartOfNone(b, m.answer, m.accepted);
  }

  lemma RestartOfNone(a: Adapter, counter: u32, accepted: bool)
    ensures a.sessions == map[] ==>
              AfterRestart(a, counter, accepted) == (a.(ongoingDistance := 0, ongoingInterval := 0), StopTrip)
  {
  }

  lemma ReportSeen(w: World, m: Move)
    requires Legal(w, m) && m.Report?
    ensures Handled(w, m) == if Kept(w, m).Keys == w.a.sessions.Keys then (Seen(w, m), NoCommand)
                             else AfterRestart(Seen(w, m), m.value, m.accepted)
  {
    SweepIs(Sweep(w.a.sessions, [], w.a.intervalDropped, w.a.distanceDropped), w.a.sessions, w.a.sessions.Keys,
            m.value, w.a.ongoingDistance, w.a.ongoingInterval);
    CompletedIff(w, m.value);
    var sweep := Swept(w.a, m.value);
    assert sweep.sessions == Kept(w, m);
    assert Survivors(w, m.value).Keys == Kept(w, m).Keys;
    assert sweep.distanceDropped == DistanceGone(w, m);
    assert sweep.intervalDropped == IntervalGone(w, m);
    assert sweep.completed == [] + DoneInOrder(w.a.sessions, w.a.sessions.Keys, m.value);
    hide Swept, AfterRestart, Kept, Recorded;
  }

  // ----- with what the modem is restarted -------------------------------------------

  ghost predicate AllShort(sessions: map<nat, TripSession>) {
    forall id :: id in sessions ==> sessions[id].thisTrip < sessions[id].tripDistance
  }

  lemma ReportLeavesShort(w: World, m: Move)
    requires m.Report?
    ensures AllShort(Kept(w, m))
  {
  }

  /** The loop finds what the trip nearest to its end has to go. */
  lemma LeastFound(sessions: map<nat, TripSession>, least: int)
    requires AllShort(sessions) && IsLeastRemaining(least, sessions)
    ensures Smallest(Remainders(sessions)) == least > 0
  {
    var id :| id in sessions && Remaining(sessions[id]) == least;
    RemainingMinimumIff(sessions);
    NothingForgotten(sessions);
    var found := Smallest(Remainders(sessions));
    hide Smallest, Remainders, ForgetsZero;
    assert IsLeastRemaining(found, sessions);
    var at :| at in sessions && Remaining(sessions[at]) == found;
  }

  /** The trip nearest to its end is nearer than the batch, or the batch has nothing to go by. */
  ghost predicate NeedsDistance(w: World, m: Move, least: int)
    requires m.Leave? || m.Report?
  {
    DistanceGone(w, m) || Left(w, m) == 0 || least < Left(w, m)
  }

  /**
   When the trips left are all short of their distances, a stop or a report sends the modem the
   least that remains of any of them exactly if a trip with the ongoing distance is gone, the
   batch is done, or it has more to go than that; and otherwise, for the interval alone, the
   whole old distance.
   */
  lemma RestartDistanceIff(w: World, m: Move, least: int)
    requires Legal(w, m) && (m.Leave? || m.Report?)
    requires AllShort(Kept(w, m)) && IsLeastRemaining(least, Kept(w, m))
    ensures Handled(w, m).1.RestartTrip? ==>
            var d := Handled(w, m).1.distance;
            && (d == least <==> NeedsDistance(w, m, least) || w.a.ongoingDistance == least)
            && (d != least ==> d == w.a.ongoingDistance)
            && (d <= least <==> NeedsDistance(w, m, least) || w.a.ongoingDistance <= least)
  {
    if m.Leave? { LeaveSeen(w, m); } else { ReportSeen(w, m); }
    LeastFound(Kept(w, m), least);
    hide Handled, Smallest, Remainders, Intervals, Kept, DistanceGone, IntervalGone, Sub32, Left;
    assert Left(w, m) == Sub32(w.a.ongoingDistance, Answer(m)) by { LeftIs(w, m); }
  }

  lemma LeftIs(w: World, m: Move)
    requires m.Leave? || m.Report?
    ensures Left(w, m) == Sub32(w.a.ongoingDistance, Answer(m))
  {
  }

  lemma LeastIs(sessions: map<nat, TripSession>)
    requires AllShort(sessions) && sessions != map[]
    ensures IsLeastRemaining(Smallest(Remainders(sessions)), sessions)
  {
    RemainingMinimumIff(sessions);
    NothingForgotten(sessions);
  }

  /** Which is, in these cases, what the modem's next batch has to go from the counter's zero, if it accepts. */
  lemma AcceptedGoesLeast(w: World, m: Move)
    requires Legal(w, m) && (m.Leave? || m.Report?) && AllShort(Kept(w, m))
    requires DistanceGone(w, m) || Left(w, m) == 0
    ensures Restarts(w, m) ==>
              && IsLeastRemaining(Next(w, m).modem.distance, Kept(w, m))
              && Next(w, m).modem.distance == Next(w, m).a.ongoingDistance && Next(w, m).counter == 0
  {
    if Restarts(w, m) {
      RestartGoes(w, m);
      LeastIs(Kept(w, m));
      var least := Smallest(Remainders(Kept(w, m)));
      hide Handled, Smallest, Remainders, Kept, DistanceGone, Left, Next, IsLeastRemaining;
      RestartDistanceIff(w, m, least);
    }
  }

  lemma RestartIs(w: World, m: Move)
    requires Legal(w, m) && (m.Leave? || m.Report?)
    ensures Restarts(w, m) ==>
              && Handled(w, m).1.RestartTrip? && m.accepted
              && Next(w, m).modem.distance == Handled(w, m).1.distance
              && Next(w, m).counter == 0 && Next(w, m).a == Handled(w, m).0
  {
    hide Handled;
  }

  lemma RestartGoes(w: World, m: Move)
    requires Legal(w, m) && (m.Leave? || m.Report?)
    ensures Restarts(w, m) ==>
            var next, d := Next(w, m), Handled(w, m).1.distance;
            && next.modem.distance == d && next.a.ongoingDistance == d && next.counter == 0
            && next.a.sessions.Keys == Kept(w, m).Keys && Kept(w, m) != map[]
            && Handled(w, m).1.RestartTrip?
  {
    if Restarts(w, m) {
      RestartIs(w, m);
      if m.Leave? { LeaveSeen(w, m); } else { ReportSeen(w, m); }
      RestartedAs(Seen(w, m), Answer(m));
      hide AfterRestart, Handled, Kept, DistanceGone, IntervalGone, Next, Restarts;
      assert Handled(w, m) == AfterRestart(Seen(w, m), Answer(m), true);
    }
  }

  lemma RestartedAs(a: Adapter, counter: u32)
    ensures var (b, command) := AfterRestart(a, counter, true);
            command.RestartTrip? ==>
              && b.ongoingDistance == command.distance && b.sessions.Keys == a.sessions.Keys && a.sessions != map[]
  {
    hide RestartPlan;
  }

  /**
   When the modem is restarted at all: trips are left and, after a report, another one is done,
   and the distance calls for it or the interval does.
   */
  lemma RestartsIff(w: World, m: Move, least: int)
    requires Legal(w, m) && (m.Leave? || m.Report?)
    requires AllShort(Kept(w, m)) && IsLeastRemaining(least, Kept(w, m))
    ensures var soonest, interval := Smallest(Intervals(Kept(w, m))), w.a.ongoingInterval;
            Handled(w, m).1.RestartTrip? <==>
              && (m.Report? ==> Kept(w, m).Keys != w.a.sessions.Keys)
              && (NeedsDistance(w, m, least) || soonest < interval || (soonest != interval && IntervalGone(w, m)))
  {
    if m.Leave? { LeaveSeen(w, m); KeptOfLeave(w, m); } else { ReportSeen(w, m); }
    LeastFound(Kept(w, m), least);
    LeftIs(w, m);
    assert Kept(w, m) != map[];
    hide Handled, Smallest, Remainders, Intervals, Kept, DistanceGone, IntervalGone, Sub32, Left;
  }

  lemma KeptOfLeave(w: World, m: Move)
    requires Legal(w, m) && m.Leave?
    ensures Kept(w, m).Keys != w.a.sessions.Keys
  {
    assert m.id !in Kept(w, m);
  }

  // ----- whether that is too far ----------------------------------------------------

  /** The batch is over no later than any trip reaches its own distance. */
  ghost predicate InTime(w: World) {
    forall id :: id in w.a.sessions ==>
      w.modem.distance + Distance(w, id) <= w.a.sessions[id].tripDistance + w.counter
  }

  /** So no trip reaches its distance while the batch still has something to go. */
  lemma BatchEndsFirst(w: World, id: nat)
    requires InTime(w) && id in w.a.sessions && w.counter < w.modem.distance
    ensures Distance(w, id) < w.a.sessions[id].tripDistance
  {
  }

  /** A join sends the smaller of its own distance and what it takes the batch still to have to go. */
  ghost function JoinDistance(w: World, m: Move): u32
    requires m.Join?
  {
    var left := if m.queryOk then Sub32(w.a.ongoingDistance, w.counter) else w.a.ongoingDistance;
    if m.distance < left then m.distance else left
  }

  lemma JoinGoes(w: World, m: Move)
    requires Legal(w, m) && m.Join? && JoinRestarts(w, m)
    ensures Next(w, m).modem.distance == JoinDistance(w, m) && Next(w, m).counter == 0
    ensures Next(w, m).a.ongoingDistance == JoinDistance(w, m)
  {
  }

  /** The distance a stop sends, by what its trips had to go when they were last reported. */
  ghost function LeaveDistance(w: World, m: Move): u32
    requires m.Leave?
  {
    var least, left := Smallest(Remainders(Kept(w, m))), Left(w, m);
    if DistanceGone(w, m) || left == 0 then (if least != 0 then least else w.a.ongoingDistance)
    else if least < left then least else w.a.ongoingDistance
  }

  /**
   The restarts that send the modem too far: of a join, when it does not know how far the batch
   has come or the batch is overdue, and the carry-over leaves some trip less to go; of a stop,
   when some trip has come too far since it was last reported, or for the interval alone; and of
   a report, for the interval alone, when some trip has less to go than the old distance.
   */
  ghost predicate Overshoots(w: World, m: Move)
    requires Legal(w, m)
  {
    match m
    case Travel(_) => false
    case Join(_, _, _, _, queryOk) =>
      && JoinRestarts(w, m) && (!queryOk || w.a.ongoingDistance < w.counter)
      && exists id :: id in w.a.sessions
                      && w.a.sessions[id].tripDistance < JoinDistance(w, m) + w.a.sessions[id].thisTrip
    case Leave(id, answer, _) =>
      && Restarts(w, m)
      && exists i :: i in w.a.sessions && i != id
                     && w.a.sessions[i].tripDistance < LeaveDistance(w, m) + Recorded(w.a.sessions[i], answer)
    case Report(_, _) =>
      && Restarts(w, m) && !DistanceGone(w, m) && Left(w, m) != 0
      && (forall id :: id in Kept(w, m) ==> Left(w, m) <= Remaining(Kept(w, m)[id]))
      && exists id :: id in Kept(w, m) && Remaining(Kept(w, m)[id]) < w.a.ongoingDistance
  }

  lemma TravelInTime(w: World, m: Move)
    requires Inv(w) && Legal(w, m) && m.Travel? && InTime(w)
    ensures InTime(Next(w, m))
  {
    var next := Next(w, m);
    assert next.a == w.a && next.counter == w.counter + m.metres && next.modem == w.modem;
    hide Next, Recorded;
    forall id | id in w.a.sessions ensures Distance(next, id) == Distance(w, id) + m.metres {
      RecordedIs(w.a.sessions[id], w.counter);
      RecordedIs(w.a.sessions[id], w.counter + m.metres);
    }
  }

  lemma FirstInTime(w: World, m: Move)
    requires Legal(w, m) && m.Join? && w.a.sessions == map[]
    ensures InTime(Next(w, m))
  {
  }

  lemma FreshDistance(w: World, id: nat)
    requires id in w.a.sessions && w.a.sessions[id].onRestart == 0 && w.a.sessions[id].ongoingBatch == w.counter
    ensures Distance(w, id) == 0
  {
    RecordedIs(w.a.sessions[id], w.counter);
  }

  lemma CarriedDistance(w: World, next: World, id: nat)
    requires Inv(w) && id in w.a.sessions && id in next.a.sessions && next.counter == 0
    requires next.a.sessions[id] == CarriedOver(w.a.sessions[id])
    ensures Distance(next, id) == w.a.sessions[id].thisTrip <= Distance(w, id)
    ensures next.a.sessions[id].tripDistance == w.a.sessions[id].tripDistance
  {
    SoundRecords(w.a.sessions[id], w.counter, w.road[id]);
  }

  lemma JoinedTrip(w: World, m: Move)
    requires Legal(w, m) && m.Join? && m.id in Next(w, m).a.sessions
    ensures Next(w, m).a.sessions[m.id].tripDistance == m.distance
  {
  }

  /** After a join that restarts, the others have what they had when they were last reported. */
  lemma JoinCarries(w: World, m: Move)
    requires Inv(w) && Legal(w, m) && m.Join? && w.a.sessions != map[] && JoinRestarts(w, m)
    ensures InTime(Next(w, m)) <==>
            forall id :: id in w.a.sessions ==>
              JoinDistance(w, m) + w.a.sessions[id].thisTrip <= w.a.sessions[id].tripDistance
    ensures forall id :: id in w.a.sessions ==> w.a.sessions[id].thisTrip <= Distance(w, id)
  {
    var next := Next(w, m);
    JoinedIs(w, m);
    if m.queryOk {
      FreshDistance(next, m.id);
      JoinedTrip(w, m);
    }
    JoinGoes(w, m);
    assert JoinDistance(w, m) <= m.distance;
    hide Next, JoinRestarts, Inv, CarriedOver, JoinDistance;
    forall id | id in w.a.sessions
      ensures Distance(next, id) == w.a.sessions[id].thisTrip <= Distance(w, id)
      ensures next.a.sessions[id].tripDistance == w.a.sessions[id].tripDistance
    {
      CarriedDistance(w, next, id);
    }
    hide Distance;
  }

  /** That is little enough when the join knows how far the batch has come. */
  lemma KnownJoinFits(w: World, m: Move)
    requires m.Join? && AgreesWhileRunning(w) && InTime(w) && m.queryOk && w.counter <= w.a.ongoingDistance
    requires forall id :: id in w.a.sessions ==> w.a.sessions[id].thisTrip <= Distance(w, id)
    ensures forall id :: id in w.a.sessions ==>
              JoinDistance(w, m) + w.a.sessions[id].thisTrip <= w.a.sessions[id].tripDistance
  {
    NoWrap(w.a.ongoingDistance, w.counter);
    var left := JoinDistance(w, m);
    assert left <= w.a.ongoingDistance - w.counter;
    hide Distance, JoinDistance;
    forall id | id in w.a.sessions ensures left + w.a.sessions[id].thisTrip <= w.a.sessions[id].tripDistance {
      assert w.modem.distance + Distance(w, id) <= w.a.sessions[id].tripDistance + w.counter;
    }
  }

  lemma JoinRestartInTimeIff(w: World, m: Move)
    requires Inv(w) && AgreesWhileRunning(w) && Legal(w, m) && m.Join? && InTime(w) && w.a.sessions != map[]
    requires JoinRestarts(w, m)
    ensures InTime(Next(w, m)) <==> !Overshoots(w, m)
  {
    JoinCarries(w, m);
    if m.queryOk && w.counter <= w.a.ongoingDistance { KnownJoinFits(w, m); }
    hide Next, JoinRestarts, Inv, InTime, Distance, JoinDistance;
  }

  lemma QuietJoinInTime(w: World, m: Move)
    requires Inv(w) && AgreesWhileRunning(w) && Legal(w, m) && m.Join? && InTime(w) && w.a.sessions != map[]
    requires !JoinRestarts(w, m)
    ensures InTime(Next(w, m))
  {
    var next := Next(w, m);
    JoinedIs(w, m);
    JoinStays(w, m);
    NoWrap(w.a.ongoingDistance, w.counter);
    if m.queryOk {
      FreshDistance(next, m.id);
      JoinedTrip(w, m);
      assert w.modem.distance <= m.distance + w.counter;
    }
    hide Next, JoinRestarts, Inv, Sub32;
    DistanceIs(w);
    DistanceIs(next);
    hide Distance, Recorded;
  }

  lemma JoinStays(w: World, m: Move)
    requires Legal(w, m) && m.Join? && w.a.sessions != map[] && !JoinRestarts(w, m)
    ensures Next(w, m).modem == w.modem
    ensures m.queryOk ==> Sub32(w.a.ongoingDistance, w.counter) <= m.distance
  {
  }

  // ----- stops and reports ----------------------------------------------------------

  lemma RestartInTimeIff(w: World, m: Move)
    requires Legal(w, m) && (m.Leave? || m.Report?) && w.road.Keys == w.a.sessions.Keys
    ensures Restarts(w, m) ==>
              (InTime(Next(w, m)) <==>
               forall id :: id in Kept(w, m) && id in w.a.sessions ==>
                 Handled(w, m).1.distance + Recorded(w.a.sessions[id], Answer(m)) <= w.a.sessions[id].tripDistance)
  {
    if Restarts(w, m) {
      RestartGoes(w, m);
      StayingIs(w, m);
      var next := Next(w, m);
      hide Next, Handled, Restarts, Kept;
      forall id | id in next.a.sessions
        ensures Distance(next, id) == Recorded(w.a.sessions[id], Answer(m))
        ensures next.a.sessions[id].tripDistance == w.a.sessions[id].tripDistance
      {
        RebasedKeepsIff(w.a.sessions[id], Answer(m), w.counter);
      }
      hide Distance, Recorded;
    }
  }

  lemma QuietInTime(w: World, m: Move)
    requires Legal(w, m) && (m.Leave? || m.Report?) && !Restarts(w, m) && w.road.Keys == w.a.sessions.Keys
    requires InTime(w)
    ensures InTime(Next(w, m))
  {
    StayingIs(w, m);
    QuietModem(w, m);
    var next := Next(w, m);
    hide Next, Handled, Restarts;
    forall id | id in next.a.sessions
      ensures Distance(next, id) == Distance(w, id)
      ensures next.a.sessions[id].tripDistance == w.a.sessions[id].tripDistance
    {
      ReportKeepsRecord(w.a.sessions[id], Answer(m), w.counter);
    }
    hide Distance;
  }

  lemma QuietModem(w: World, m: Move)
    requires Legal(w, m) && (m.Leave? || m.Report?) && !Restarts(w, m)
    ensures Next(w, m).modem == w.modem || Next(w, m).a.sessions == map[]
  {
    if m.Leave? { LeaveSeen(w, m); } else { ReportSeen(w, m); }
    RestartedIs(Seen(w, m), Answer(m), m.accepted);
    NoStart(w, m);
    hide AfterRestart, Handled, Kept, DistanceGone, IntervalGone;
  }

  lemma LeaveGoes(w: World, m: Move)
    requires Legal(w, m) && m.Leave?
    ensures Restarts(w, m) ==> Handled(w, m).1.RestartTrip? && Handled(w, m).1.distance == LeaveDistance(w, m)
    ensures Kept(w, m).Keys == w.a.sessions.Keys - {m.id}
  {
    if Restarts(w, m) {
      LeaveSeen(w, m);
      LeftIs(w, m);
      assert Kept(w, m).Keys == w.a.sessions.Keys - {m.id};
      hide Handled, Smallest, Remainders, Intervals, Kept, DistanceGone, IntervalGone, Sub32, Left;
    }
  }

  lemma LeaveInTimeIff(w: World, m: Move)
    requires Legal(w, m) && m.Leave? && w.road.Keys == w.a.sessions.Keys
    ensures Restarts(w, m) ==> (InTime(Next(w, m)) <==> !Overshoots(w, m))
  {
    if Restarts(w, m) {
      RestartInTimeIff(w, m);
      LeaveGoes(w, m);
      hide InTime, Next, Handled, Restarts, LeaveDistance, Recorded, Kept;
    }
  }

  lemma KeptByReport(w: World, m: Move)
    requires m.Report?
    ensures forall id :: id in Kept(w, m) ==>
              && id in w.a.sessions
              && Remaining(Kept(w, m)[id]) == w.a.sessions[id].tripDistance - Recorded(w.a.sessions[id], m.value)
  {
  }

  lemma ReportInTimeLeast(w: World, m: Move, least: int)
    requires Legal(w, m) && m.Report? && w.road.Keys == w.a.sessions.Keys
    requires IsLeastRemaining(least, Kept(w, m))
    ensures Restarts(w, m) ==> (InTime(Next(w, m)) <==> Handled(w, m).1.distance <= least)
  {
    if Restarts(w, m) {
      RestartInTimeIff(w, m);
      KeptByReport(w, m);
      hide InTime, Next, Handled, Restarts, Recorded, Kept, Remaining;
      var at :| at in Kept(w, m) && Remaining(Kept(w, m)[at]) == least;
    }
  }

  lemma ReportOvershootsIff(w: World, m: Move, least: int)
    requires Legal(w, m) && m.Report? && IsLeastRemaining(least, Kept(w, m))
    ensures Restarts(w, m) ==>
              (Overshoots(w, m) <==> !NeedsDistance(w, m, least) && least < w.a.ongoingDistance)
  {
    if Restarts(w, m) {
      hide Restarts, Kept, DistanceGone, Left, Remaining;
      var at :| at in Kept(w, m) && Remaining(Kept(w, m)[at]) == least;
    }
  }

  lemma ReportInTimeIff(w: World, m: Move)
    requires Legal(w, m) && m.Report? && w.road.Keys == w.a.sessions.Keys
    ensures Restarts(w, m) ==> (InTime(Next(w, m)) <==> !Overshoots(w, m))
  {
    if Restarts(w, m) {
      RestartGoes(w, m);
      ReportLeavesShort(w, m);
      LeastIs(Kept(w, m));
      var least := Smallest(Remainders(Kept(w, m)));
      hide InTime, Next, Handled, Restarts, Kept, Smallest, Remainders, NeedsDistance, IsLeastRemaining, Overshoots;
      RestartDistanceIff(w, m, least);
      ReportInTimeLeast(w, m, least);
      ReportOvershootsIff(w, m, least);
    }
  }

  /** A step leaves the batch in time exactly if it does not overshoot. */
  lemma StepInTimeIff(w: World, m: Move)
    requires Inv(w) && AgreesWhileRunning(w) && Legal(w, m) && InTime(w)
    ensures InTime(Next(w, m)) <==> !Overshoots(w, m)
  {
    if m.Travel? {
      TravelInTime(w, m);
    } else if m.Join? {
      if w.a.sessions == map[] {
        FirstInTime(w, m);
      } else if JoinRestarts(w, m) {
        JoinRestartInTimeIff(w, m);
      } else {
        QuietJoinInTime(w, m);
      }
    } else if !Restarts(w, m) {
      QuietInTime(w, m);
    } else if m.Leave? {
      LeaveInTimeIff(w, m);
    } else {
      ReportInTimeIff(w, m);
    }
  }

  /**
   When everything is reported, a stop is like a report: it overshoots exactly if it restarts the
   modem for the interval alone and some trip has less to go than the old distance.
   */
  lemma ReportedStopOvershootsIff(w: World, m: Move, least: int)
    requires Legal(w, m) && m.Leave? && w.road.Keys == w.a.sessions.Keys
    requires AllShort(Kept(w, m)) && IsLeastRemaining(least, Kept(w, m))
    requires forall id :: id in Kept(w, m) ==> Kept(w, m)[id].thisTrip == Recorded(Kept(w, m)[id], m.answer)
    ensures Restarts(w, m) ==>
              (Overshoots(w, m) <==> !NeedsDistance(w, m, least) && least < w.a.ongoingDistance)
  {
    if Restarts(w, m) {
      RestartDistanceIff(w, m, least);
      LeaveGoes(w, m);
      assert forall id :: id in Kept(w, m) ==> Kept(w, m)[id] == w.a.sessions[id];
      hide Handled, Restarts, Recorded, Kept, NeedsDistance, LeaveDistance;
      var at :| at in Kept(w, m) && Remaining(Kept(w, m)[at]) == least;
    }
  }

  ghost predicate AlwaysInTime(ms: seq<Move>)
    requires LegalRun(ms)
  {
    InTime(Run(ms)) && (ms != [] ==> AlwaysInTime(ms[..|ms| - 1]))
  }

  ghost predicate NeverOvershoots(ms: seq<Move>)
    requires LegalRun(ms)
  {
    ms != [] ==> NeverOvershoots(ms[..|ms| - 1]) && !Overshoots(Run(ms[..|ms| - 1]), ms[|ms| - 1])
  }

  /**
   In runs that go by timely values: in every state the modem's batch is over no later than any
   trip reaches its own distance, if and only if no restart overshoots.
   */
  lemma {:induction false} InTimeRunsIff(ms: seq<Move>)
    requires LegalRun(ms) && OnTimeRun(ms)
    ensures AlwaysInTime(ms) <==> NeverOvershoots(ms)
  {
    if ms != [] {
      var before := ms[..|ms| - 1];
      InTimeRunsIff(before);
      RunKeeps(before);
      RunAgrees(before);
      hide Next, Legal, Inv, InTime, Overshoots, AgreesWhileRunning;
      if AlwaysInTime(before) {
        InTimeNow(before);
        StepInTimeIff(Run(before), ms[|ms| - 1]);
      }
    }
  }

  lemma InTimeNow(ms: seq<Move>)
    requires LegalRun(ms) && AlwaysInTime(ms)
    ensures InTime(Run(ms))
  {
  }
}
