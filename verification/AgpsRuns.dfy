/**
 What every run of one AGPS state machine keeps, read off its trace by an account that
 knows nothing of the machine: who was listed and who was told the end of it, which
 phase the data connection is in for the framework, and who has been told of success.
 */
module AgpsRuns {
  import opened Agps

  // ----- reading a trace ----------------------------------------------------------

  /** The life of a data connection as the framework sees it. */
  datatype Phase = Idle | Asked | Up | Broken

  datatype Account = Account(
    added: multiset<int>,  // put on the list
    failed: multiset<int>, // told open failure
    closed: multiset<int>, // told close
    lost: multiset<int>,   // erased by a modem restart
    phase: Phase,
    told: set<int>,        // told open success, and nothing final since
    restarted: bool)

  /** Broken is a request while one is outstanding, or a release with nothing to release. */
  function PhaseAfter(p: Phase, e: Entry): Phase {
    match e
    case DataConn(true) => if p == Idle then Asked else Broken
    case DataConn(false) => if p == Asked || p == Up then Idle else Broken
    case Framework(EventGranted) => if p == Asked then Up else p
    case Framework(EventReleased) => if p == Up then Idle else p
    case Framework(EventDenied) => if p == Asked then Idle else p
    case _ => p
  }

  ghost function Next(a: Account, e: Entry): Account {
    var b := a.(phase := PhaseAfter(a.phase, e));
    match e
    case Listed(h) => b.(added := b.added + multiset{h})
    case OpenStatus(h, true) => b.(told := b.told + {h})
    case OpenStatus(h, false) => b.(failed := b.failed + multiset{h}, told := b.told - {h})
    case CloseStatus(h) => b.(closed := b.closed + multiset{h}, told := b.told - {h})
    case Dropped(h) => b.(lost := b.lost + multiset{h}, told := b.told - {h})
    case ModemRestart => b.(restarted := true)
    case _ => b
  }

  ghost function Read(trace: seq<Entry>): Account {
    if trace == [] then Account(multiset{}, multiset{}, multiset{}, multiset{}, Idle, {}, false)
    else Next(Read(trace[..|trace| - 1]), trace[|trace| - 1])
  }

  lemma ReadNext(trace: seq<Entry>, e: Entry)
    ensures Read(trace + [e]) == Next(Read(trace), e)
  {
    assert (trace + [e])[..|trace|] == trace;
  }

  // ----- lists --------------------------------------------------------------------

  ghost function Picked(kind: NotificationType, list: seq<Subscriber>): multiset<int> {
    if list == [] then multiset{}
    else if Selected(kind, list[0]) then multiset{list[0].connHandle} + Picked(kind, list[1..])
    else Picked(kind, list[1..])
  }

  lemma {:induction false} HandlesIffHas(list: seq<Subscriber>, h: int)
    ensures h in Handles(list) <==> Has(list, h)
  {
    if list != [] {
      HandlesIffHas(list[1..], h);
      assert Has(list, h) <==> list[0].connHandle == h || Has(list[1..], h) by {
        if Has(list, h) {
          var i :| 0 <= i < |list| && list[i].connHandle == h;
          if i > 0 { assert list[1..][i - 1].connHandle == h; }
        }
        if Has(list[1..], h) {
          var i :| 0 <= i < |list[1..]| && list[1..][i].connHandle == h;
          assert list[i + 1].connHandle == h;
        }
      }
    }
  }

  lemma {:induction false} HandlesAppend(list: seq<Subscriber>, s: Subscriber)
    ensures Handles(list + [s]) == Handles(list) + multiset{s.connHandle}
  {
    if list != [] {
      assert (list + [s])[1..] == list[1..] + [s];
      HandlesAppend(list[1..], s);
    }
  }

  lemma InSplit(list: seq<Subscriber>, s: Subscriber)
    requires list != []
    ensures s in list <==> s == list[0] || s in list[1..]
  {
    assert list == [list[0]] + list[1..];
  }

  /** Deleting splits a list: what goes is what was picked. */
  lemma {:induction false} RemainingSplits(kind: NotificationType, list: seq<Subscriber>)
    ensures Handles(list) == Handles(Remaining(kind, true, list)) + Picked(kind, list)
  {
    if list != [] { RemainingSplits(kind, list[1..]); }
  }

  lemma {:induction false} RemainingMember(kind: NotificationType, list: seq<Subscriber>, s: Subscriber)
    ensures s in Remaining(kind, true, list) <==> s in list && !Selected(kind, s)
  {
    if list != [] {
      RemainingMember(kind, list[1..], s);
      InSplit(list, s);
    }
  }

  lemma {:induction false} RemainingDistinct(kind: NotificationType, list: seq<Subscriber>)
    requires Distinct(list)
    ensures Distinct(Remaining(kind, true, list))
  {
    if list != [] {
      RemainingDistinct(kind, list[1..]);
      var left := Remaining(kind, true, list[1..]);
      forall i | 0 <= i < |left| ensures left[i].connHandle != list[0].connHandle {
        RemainingMember(kind, list[1..], left[i]);
      }
    }
  }

  lemma {:induction false} RemainingAll(kind: NotificationType, list: seq<Subscriber>)
    ensures Remaining(kind, false, list) == list
  {
    if list != [] { RemainingAll(kind, list[1..]); }
  }

  lemma {:induction false} WithoutMember(list: seq<Subscriber>, h: int, s: Subscriber)
    ensures s in Without(list, h) <==> s in list && s.connHandle != h
  {
    if list != [] {
      WithoutMember(list[1..], h, s);
      InSplit(list, s);
    }
  }

  lemma {:induction false} WithoutDistinct(list: seq<Subscriber>, h: int)
    requires Distinct(list)
    ensures Distinct(Without(list, h))
  {
    if list != [] {
      WithoutDistinct(list[1..], h);
      var left := Without(list[1..], h);
      forall i | 0 <= i < |left| ensures left[i].connHandle != list[0].connHandle {
        WithoutMember(list[1..], h, left[i]);
      }
    }
  }

  lemma {:induction false} WithoutAbsent(list: seq<Subscriber>, h: int)
    requires !Has(list, h)
    ensures Without(list, h) == list
  {
    if list != [] {
      assert list[0].connHandle != h;
      assert forall i :: 0 <= i < |list[1..]| ==> list[1..][i] == list[i + 1];
      WithoutAbsent(list[1..], h);
    }
  }

  lemma {:induction false} WithoutSplits(list: seq<Subscriber>, h: int)
    requires Distinct(list) && Has(list, h)
    ensures Handles(list) == Handles(Without(list, h)) + multiset{h}
  {
    if list[0].connHandle == h {
      forall i | 0 <= i < |list[1..]| ensures list[1..][i].connHandle != h {
        assert list[1..][i] == list[i + 1];
      }
      WithoutAbsent(list[1..], h);
    } else {
      var i :| 0 <= i < |list| && list[i].connHandle == h;
      assert list[1..][i - 1] == list[i];
      WithoutSplits(list[1..], h);
    }
  }

  lemma {:induction false} InactivatedKeepsHandles(list: seq<Subscriber>, h: int)
    ensures Handles(Inactivated(list, h)) == Handles(list)
  {
    if list != [] {
      assert Inactivated(list, h)[1..] == Inactivated(list[1..], h);
      InactivatedKeepsHandles(list[1..], h);
    }
  }

  ghost function Members(m: multiset<int>): set<int> {
    set h | h in m
  }

  ghost function Lose(a: Account, m: multiset<int>): Account {
    a.(lost := a.lost + m, told := a.told - Members(m))
  }

  /** Open success adds to `told`; open failure, for a denial, and close, for anything else, are final. */
  ghost function Tell(a: Account, event: AgpsEvent, m: multiset<int>): Account {
    if event == EventGranted then a.(told := a.told + Members(m))
    else if event == EventDenied then a.(failed := a.failed + m, told := a.told - Members(m))
    else a.(closed := a.closed + m, told := a.told - Members(m))
  }

  lemma LoseNext(a: Account, h: int, m: multiset<int>)
    ensures Lose(a, multiset{}) == a
    ensures Lose(Next(a, Dropped(h)), m) == Lose(a, multiset{h} + m)
  {
    assert Members(multiset{h} + m) == {h} + Members(m);
    assert a.told - {h} - Members(m) == a.told - ({h} + Members(m));
    assert a.lost + multiset{h} + m == a.lost + (multiset{h} + m);
  }

  lemma TellNext(a: Account, event: AgpsEvent, h: int, m: multiset<int>)
    requires event != EventSubscribe
    ensures Tell(a, event, multiset{}) == a
    ensures Tell(Next(a, NoticeOf(event, h)[0]), event, m) == Tell(a, event, multiset{h} + m)
  {
    assert Members(multiset{h} + m) == {h} + Members(m);
    assert a.told - {h} - Members(m) == a.told - ({h} + Members(m));
    assert a.told + {h} + Members(m) == a.told + ({h} + Members(m));
    assert a.failed + multiset{h} + m == a.failed + (multiset{h} + m);
    assert a.closed + multiset{h} + m == a.closed + (multiset{h} + m);
  }

  /** What telling a whole list does to the account. */
  lemma {:induction false} ReadNotified(trace: seq<Entry>, event: AgpsEvent, kind: NotificationType,
                                        list: seq<Subscriber>)
    requires event != EventSubscribe
    ensures Read(Notified(trace, event, kind, list)) == Tell(Read(trace), event, Picked(kind, list))
    decreases list
  {
    if list == [] {
      TellNext(Read(trace), event, 0, multiset{});
    } else if Selected(kind, list[0]) {
      var h := list[0].connHandle;
      ReadNext(trace, NoticeOf(event, h)[0]);
      TellNext(Read(trace), event, h, Picked(kind, list[1..]));
      ReadNotified(trace + NoticeOf(event, h), event, kind, list[1..]);
    } else {
      ReadNotified(trace, event, kind, list[1..]);
    }
  }

  lemma {:induction false} ReadErased(trace: seq<Entry>, list: seq<Subscriber>)
    ensures Read(Erased(trace, list)) == Lose(Read(trace), Handles(list))
    decreases list
  {
    if list == [] {
      LoseNext(Read(trace), 0, multiset{});
    } else {
      var h := list[0].connHandle;
      ReadNext(trace, Dropped(h));
      LoseNext(Read(trace), h, Handles(list[1..]));
      ReadErased(trace + [Dropped(h)], list[1..]);
    }
  }

  // ----- the invariant ------------------------------------------------------------

  function PhaseFor(state: AgpsState): Phase {
    match state
    case StatePending => Asked
    case StateAcquired => Up
    case _ => Idle
  }

  /**
   The books balance: everybody ever listed is still listed, has been told open failure or
   close, or was lost in a restart.  The framework's phase is the machine's state.  An active
   subscriber has been told of success exactly while the connection is up, and while the
   connection is asked for nobody has, active or not.
   */
  ghost predicate Sound(state: AgpsState, list: seq<Subscriber>, a: Account) {
    && Distinct(list)
    && (state == StateReleased ==> list == [])
    && a.added == Handles(list) + a.failed + a.closed + a.lost
    && a.phase == PhaseFor(state)
    && (forall h :: h in a.told ==> h in Handles(list))
    && (forall s :: s in list && !s.isInactive ==> (s.connHandle in a.told <==> state == StateAcquired))
    && (state == StatePending ==> a.told == {})
    && (!a.restarted && (state == StatePending || state == StateAcquired) ==> AnyActive(list))
    && (!a.restarted && state == StateReleasing ==> list != [])
  }

  ghost predicate Inv(m: Machine) {
    Sound(m.state, m.list, Read(m.trace))
  }

  lemma InitialInv()
    ensures Inv(INITIAL_MACHINE)
  {
  }

  lemma NobodyTold(a: Account)
    requires forall h :: h in a.told ==> h in Handles([])
    ensures a.told == {}
  {
    assert forall h :: h !in a.told;
  }

  lemma LongerList(list: seq<Subscriber>, s: Subscriber)
    requires Distinct(list) && !Has(list, s.connHandle)
    ensures Distinct(list + [s])
    ensures forall t :: t in list + [s] <==> t == s || t in list
    ensures forall t :: t in list ==> t.connHandle != s.connHandle
    ensures AnyActive(list) || !s.isInactive ==> AnyActive(list + [s])
  {
    var longer := list + [s];
    assert longer[|list|] == s && forall i :: 0 <= i < |list| ==> longer[i] == list[i];
    forall t | t in list ensures t.connHandle != s.connHandle {
      var i :| 0 <= i < |list| && list[i] == t;
    }
    if AnyActive(list) {
      var i :| 0 <= i < |list| && !list[i].isInactive;
      assert !longer[i].isInactive;
    }
  }

  /** A new active subscriber is listed; only a connection that is up is reported to it. */
  lemma SoundAdd(state: AgpsState, list: seq<Subscriber>, a: Account, s: Subscriber)
    requires Sound(state, list, a)
    requires !Has(list, s.connHandle) && !s.isInactive
    ensures var next := if state == StateReleased then StatePending else state;
            Sound(next, list + [s], a.(added := a.added + multiset{s.connHandle},
                                       phase := PhaseFor(next),
                                       told := if next == StateAcquired then a.told + {s.connHandle} else a.told))
  {
    if list == [] { NobodyTold(a); }
    LongerList(list, s);
    HandlesAppend(list, s);
    HandlesIffHas(list, s.connHandle);
    hide Handles, Has, Distinct, AnyActive;
  }

  /** The trace of a subscribe, read. */
  lemma ReadSubscribe(m: Machine, s: Subscriber)
    requires !Has(m.list, s.connHandle) && Read(m.trace).phase == PhaseFor(m.state)
    ensures var next := if m.state == StateReleased then StatePending else m.state;
            var a := Read(m.trace);
            Read(AfterSubscribe(m, s).trace)
            == a.(added := a.added + multiset{s.connHandle}, phase := PhaseFor(next),
                  told := if next == StateAcquired then a.told + {s.connHandle} else a.told)
  {
    hide Read, Has;
    var h := s.connHandle;
    match m.state
    case StateReleased =>
      ReadNext(m.trace, Listed(h));
      ReadNext(m.trace + [Listed(h)], DataConn(true));
    case StateAcquired =>
      ReadNext(m.trace, OpenStatus(h, true));
      ReadNext(m.trace + [OpenStatus(h, true)], Listed(h));
    case _ =>
      ReadNext(m.trace, Listed(h));
  }

  /** A subscriber that is listed already is only told, of a connection that is up, once more. */
  lemma SubscribeAgain(m: Machine, s: Subscriber)
    requires Inv(m) && Has(m.list, s.connHandle)
    ensures Inv(AfterSubscribe(m, s))
  {
    ReadNext(m.trace, OpenStatus(s.connHandle, true));
    HandlesIffHas(m.list, s.connHandle);
    hide Read, Handles, Distinct, AnyActive;
  }

  lemma SubscribeKeeps(m: Machine, s: Subscriber)
    requires Inv(m) && !s.isInactive
    ensures Inv(AfterSubscribe(m, s))
  {
    if Has(m.list, s.connHandle) {
      SubscribeAgain(m, s);
    } else {
      ReadSubscribe(m, s);
      SoundAdd(m.state, m.list, Read(m.trace), s);
      hide Read, Handles, Has, Distinct, AnyActive;
    }
  }

  // ----- leaving ------------------------------------------------------------------

  /** The machine's own view of the connection after somebody left. */
  ghost function StateLeft(state: AgpsState, list: seq<Subscriber>): AgpsState {
    if list == [] then StateReleased
    else if state != StateReleasing && !AnyActive(list) then StateReleasing
    else state
  }

  /** A subscriber that does not wait is told the end and taken off the list. */
  lemma SoundRemove(state: AgpsState, list: seq<Subscriber>, a: Account, h: int)
    requires Sound(state, list, a) && Has(list, h)
    ensures var left := Without(list, h);
            Sound(StateLeft(state, left), left,
                  a.(closed := a.closed + multiset{h}, told := a.told - {h},
                     phase := PhaseFor(StateLeft(state, left))))
  {
    hide Handles, Without;
    var left := Without(list, h);
    WithoutSplits(list, h);
    WithoutDistinct(list, h);
    forall s | s in left ensures s in list && s.connHandle != h {
      WithoutMember(list, h, s);
    }
    forall g | g in a.told - {h} ensures g in Handles(left) {
      assert g in Handles(list);
    }
  }

  lemma InactivatedList(list: seq<Subscriber>, h: int)
    requires Distinct(list)
    ensures var left := Inactivated(list, h);
            && Distinct(left) && (left == [] <==> list == []) && Handles(left) == Handles(list)
            && forall s :: s in left && !s.isInactive ==> s in list
  {
    var left := Inactivated(list, h);
    InactivatedKeepsHandles(list, h);
    hide Handles;
    forall s | s in left && !s.isInactive ensures s in list {
      var i :| 0 <= i < |left| && left[i] == s;
      assert list[i] == s;
    }
  }

  /** A subscriber that waits for the close stays listed, inactive. */
  lemma SoundInactivate(state: AgpsState, list: seq<Subscriber>, a: Account, h: int)
    requires Sound(state, list, a) && Has(list, h)
    ensures var left := Inactivated(list, h);
            Sound(StateLeft(state, left), left, a.(phase := PhaseFor(StateLeft(state, left))))
  {
    InactivatedList(list, h);
    assert list != [];
    hide Inactivated, Handles, Distinct, Has, AnyActive;
  }

  lemma ReadLeave(m: Machine, s: Subscriber)
    ensures var a, b := Read(m.trace), Read(Leave(m, s).trace);
            b == if s.waitForCloseComplete then a
                 else a.(closed := a.closed + multiset{s.connHandle}, told := a.told - {s.connHandle})
  {
    ReadNext(m.trace, CloseStatus(s.connHandle));
  }

  lemma ReadUnsubscribe(m: Machine, s: Subscriber)
    requires m.state != StateReleased && Read(m.trace).phase == PhaseFor(m.state)
    ensures var after, left := AfterUnsubscribe(m, s), Leave(m, s);
            && after.list == left.list && after.state == StateLeft(m.state, left.list)
            && Read(after.trace) == Read(left.trace).(phase := PhaseFor(after.state))
  {
    hide Read, Notified;
    ReadLeave(m, s);
    var after, left := AfterUnsubscribe(m, s), Leave(m, s);
    if m.state != StateReleasing && StateLeft(m.state, left.list) != m.state {
      assert after.trace == left.trace + [DataConn(false)];
      ReadNext(left.trace, DataConn(false));
    } else {
      assert after.trace == left.trace;
    }
  }

  lemma UnsubscribeKeeps(m: Machine, s: Subscriber)
    requires Inv(m) && s in m.list
    ensures Inv(AfterUnsubscribe(m, s))
  {
    var h := s.connHandle;
    assert Has(m.list, h);
    ReadUnsubscribe(m, s);
    ReadLeave(m, s);
    if s.waitForCloseComplete {
      SoundInactivate(m.state, m.list, Read(m.trace), h);
    } else {
      SoundRemove(m.state, m.list, Read(m.trace), h);
    }
  }

  // ----- the framework's events ---------------------------------------------------

  lemma PickedAll(list: seq<Subscriber>)
    ensures Picked(ForAll, list) == Handles(list)
    ensures Remaining(ForAll, true, list) == []
  {
  }

  lemma {:induction false} PickedIff(kind: NotificationType, list: seq<Subscriber>, h: int)
    ensures h in Picked(kind, list) <==> exists s :: s in list && Selected(kind, s) && s.connHandle == h
  {
    if list != [] {
      PickedIff(kind, list[1..], h);
      assert list == [list[0]] + list[1..];
    }
  }

  /** Everybody is told the end and taken off the list: force release, or denial while pending. */
  lemma SoundEnd(state: AgpsState, list: seq<Subscriber>, a: Account, event: AgpsEvent)
    requires Sound(state, list, a) && (event == EventReleased || event == EventDenied)
    ensures Sound(StateReleased, [], Tell(a.(phase := Idle), event, Handles(list)))
  {
    EndBalances(Handles(list), a.failed, a.closed, a.lost);
    ToldIsListed(list, a.told);
    assert Handles([]) == multiset{} && !AnyActive([]);
    hide Handles, AnyActive, Members;
  }

  lemma ToldIsListed(list: seq<Subscriber>, told: set<int>)
    requires forall h :: h in told ==> h in Handles(list)
    ensures told - Members(Handles(list)) == {}
  {
    forall h | h in told ensures h in Members(Handles(list)) {}
  }

  lemma EndBalances(listed: multiset<int>, failed: multiset<int>, closed: multiset<int>, lost: multiset<int>)
    ensures listed + failed + closed + lost == multiset{} + (failed + listed) + closed + lost
    ensures listed + failed + closed + lost == multiset{} + failed + (closed + listed) + lost
    ensures listed + failed + closed + lost == multiset{} + failed + closed + (lost + listed)
  {
  }

  lemma EndKeeps(seen: Machine, m: Machine, event: AgpsEvent)
    requires Inv(m) && (event == EventReleased || event == EventDenied)
    requires seen.state == StateReleased && seen.list == m.list
    requires Read(seen.trace) == Read(m.trace).(phase := Idle)
    ensures Inv(NotifyAll(seen, event, true, ForAll))
  {
    ReadNotified(seen.trace, event, ForAll, m.list);
    PickedAll(m.list);
    SoundEnd(m.state, m.list, Read(m.trace), event);
    hide Read, Notified, Handles, Picked, Tell, Sound;
  }

  lemma GrantedKeeps(m: Machine)
    requires Inv(m)
    ensures Inv(AfterGranted(m))
  {
    hide Read, Handles, Picked, Notified, Remaining;
    var a := Read(m.trace);
    var seen := m.trace + [Framework(EventGranted)];
    ReadNext(m.trace, Framework(EventGranted));
    if m.state == StatePending {
      ReadNotified(seen, EventGranted, ForActive, m.list);
      RemainingAll(ForActive, m.list);
      forall s | s in m.list && !s.isInactive
        ensures s.connHandle in Picked(ForActive, m.list)
      {
        PickedIff(ForActive, m.list, s.connHandle);
      }
      forall h | h in Picked(ForActive, m.list)
        ensures h in Handles(m.list)
      {
        RemainingSplits(ForActive, m.list);
      }
    }
  }

  /** Once the inactive are gone, whoever is left is active. */
  lemma RemainingActive(list: seq<Subscriber>)
    ensures var left := Remaining(ForInactive, true, list);
            && (forall s :: s in left ==> s in list && !s.isInactive)
            && (left != [] ==> AnyActive(left))
  {
    var left := Remaining(ForInactive, true, list);
    forall s | s in left ensures s in list && !s.isInactive {
      RemainingMember(ForInactive, list, s);
    }
    if left != [] { assert left[0] in left; }
  }

  /** The end of a release: those who waited for it are told, the others wait for a new connection. */
  lemma SoundReleaseDone(list: seq<Subscriber>, a: Account)
    requires Sound(StateReleasing, list, a)
    ensures var left := Remaining(ForInactive, true, list);
            var next := if AnyActive(left) then StatePending else StateReleased;
            Sound(next, left, Tell(a.(phase := PhaseFor(next)), EventReleased, Picked(ForInactive, list)))
  {
    hide Handles, Picked;
    var left, picked := Remaining(ForInactive, true, list), Picked(ForInactive, list);
    RemainingSplits(ForInactive, list);
    RemainingDistinct(ForInactive, list);
    RemainingActive(list);
    forall h | h in a.told ensures h in picked {
      HandlesIffHas(left, h);
      assert forall i :: 0 <= i < |left| ==> left[i] in left && left[i].connHandle !in a.told;
    }
    assert a.told - Members(picked) == {};
    assert a.added == Handles(left) + a.failed + (a.closed + picked) + a.lost;
  }

  lemma ReleaseDoneKeeps(m: Machine)
    requires Inv(m) && m.state == StateReleasing
    ensures Inv(ReleaseDone(m))
  {
    hide Read, Notified;
    var told := Notified(m.trace, EventReleased, ForInactive, m.list);
    ReadNotified(m.trace, EventReleased, ForInactive, m.list);
    SoundReleaseDone(m.list, Read(m.trace));
    if AnyActive(Remaining(ForInactive, true, m.list)) {
      ReadNext(told, DataConn(true));
      assert ReleaseDone(m).trace == told + [DataConn(true)];
    } else {
      assert ReleaseDone(m).trace == told;
    }
  }

  lemma ReleasedKeeps(m: Machine)
    requires Inv(m)
    ensures Inv(AfterReleased(m))
  {
    hide Read;
    var seen := Log(m, [Framework(EventReleased)]);
    ReadNext(m.trace, Framework(EventReleased));
    if m.state == StateAcquired {
      EndKeeps(seen.(state := StateReleased), m, EventReleased);
    } else {
      assert Read(seen.trace) == Read(m.trace);
      if m.state == StateReleasing {
        ReleaseDoneKeeps(seen);
      }
    }
  }

  lemma DeniedKeeps(m: Machine)
    requires Inv(m)
    ensures Inv(AfterDenied(m))
  {
    hide Read;
    var seen := Log(m, [Framework(EventDenied)]);
    ReadNext(m.trace, Framework(EventDenied));
    if m.state == StatePending {
      EndKeeps(seen.(state := StateReleased), m, EventDenied);
    } else {
      assert Read(seen.trace) == Read(m.trace);
      if m.state == StateReleasing {
        ReleaseDoneKeeps(seen);
      }
    }
  }

  lemma SoundRestart(state: AgpsState, list: seq<Subscriber>, a: Account)
    requires Sound(state, list, a)
    ensures Sound(state, [], Lose(a, Handles(list)).(restarted := true))
  {
    EndBalances(Handles(list), a.failed, a.closed, a.lost);
    ToldIsListed(list, a.told);
    assert Handles([]) == multiset{};
    hide Handles, Members;
  }

  lemma ModemRestartKeeps(m: Machine)
    requires Inv(m)
    ensures Inv(AfterModemRestart(m))
  {
    ReadErased(m.trace, m.list);
    ReadNext(Erased(m.trace, m.list), ModemRestart);
    SoundRestart(m.state, m.list, Read(m.trace));
    hide Read, Erased, Handles, Lose, Sound;
  }

  // ----- runs ---------------------------------------------------------------------

  /** One message the machine can be given. */
  datatype Input =
    | Request(s: Subscriber)       // a new subscriber asks for the connection
    | Release(handle: int)         // the subscriber with this handle gives it up
    | FromFramework(event: AgpsEvent)
    | Restart                      // the modem restarted

  /** Releasing a handle that is not listed does nothing. */
  ghost function Step(m: Machine, x: Input): Machine {
    match x
    case Request(s) => AfterSubscribe(m, s)
    case Release(h) => if Has(m.list, h) then AfterUnsubscribe(m, Lookup(m.list, h)) else m
    case FromFramework(EventGranted) => AfterGranted(m)
    case FromFramework(EventReleased) => AfterReleased(m)
    case FromFramework(EventDenied) => AfterDenied(m)
    case FromFramework(_) => m
    case Restart => AfterModemRestart(m)
  }

  ghost function Run(xs: seq<Input>): Machine {
    if xs == [] then INITIAL_MACHINE else Step(Run(xs[..|xs| - 1]), xs[|xs| - 1])
  }

  /** Subscribers arrive active. */
  ghost predicate ArriveActive(xs: seq<Input>) {
    forall i :: 0 <= i < |xs| && xs[i].Request? ==> !xs[i].s.isInactive
  }

  lemma StepKeeps(m: Machine, x: Input)
    requires Inv(m) && (x.Request? ==> !x.s.isInactive)
    ensures Inv(Step(m, x))
  {
    match x
    case Request(s) => SubscribeKeeps(m, s);
    case Release(h) => if Has(m.list, h) { UnsubscribeKeeps(m, Lookup(m.list, h)); }
    case FromFramework(EventGranted) => GrantedKeeps(m);
    case FromFramework(EventReleased) => ReleasedKeeps(m);
    case FromFramework(EventDenied) => DeniedKeeps(m);
    case FromFramework(_) =>
    case Restart => ModemRestartKeeps(m);
  }

  lemma {:induction false} RunKeeps(xs: seq<Input>)
    requires ArriveActive(xs)
    ensures Inv(Run(xs))
  {
    if xs == [] {
      InitialInv();
    } else {
      RunKeeps(xs[..|xs| - 1]);
      StepKeeps(Run(xs[..|xs| - 1]), xs[|xs| - 1]);
    }
  }

  // ----- what a run guarantees ----------------------------------------------------

  /**
   Conservation.  However requests, releases, framework events and modem restarts are mixed,
   everybody ever listed is accounted for exactly once: still listed, told open failure, told
   close, or lost to a restart.
   */
  lemma {:induction false} Conservation(xs: seq<Input>)
    requires ArriveActive(xs)
    ensures var m, a := Run(xs), Read(Run(xs).trace);
            && a.added == Handles(m.list) + a.failed + a.closed + a.lost
            && Distinct(m.list)
  {
    RunKeeps(xs);
  }

  /** An active listed subscriber has been told of success exactly while the machine is ACQUIRED. */
  lemma {:induction false} ToldExactlyWhileAcquired(xs: seq<Input>, s: Subscriber)
    requires ArriveActive(xs) && s in Run(xs).list && !s.isInactive
    ensures s.connHandle in Read(Run(xs).trace).told <==> Run(xs).state == StateAcquired
  {
    RunKeeps(xs);
  }

  /** The list never disagrees with the state; without a modem restart nobody waits in vain. */
  lemma {:induction false} StateAndList(xs: seq<Input>)
    requires ArriveActive(xs)
    ensures Run(xs).state == StateReleased ==> Run(xs).list == []
    ensures !Read(Run(xs).trace).restarted ==>
              && (Run(xs).state == StatePending || Run(xs).state == StateAcquired ==> AnyActive(Run(xs).list))
              && (Run(xs).state == StateReleasing ==> Run(xs).list != [])
  {
    RunKeeps(xs);
  }

  predicate EndsConnection(e: Entry) {
    e == DataConn(false) || e == Framework(EventReleased) || e == Framework(EventDenied)
  }

  ghost function PhaseOf(trace: seq<Entry>): Phase {
    if trace == [] then Idle else PhaseAfter(PhaseOf(trace[..|trace| - 1]), trace[|trace| - 1])
  }

  lemma NextPhase(a: Account, e: Entry)
    ensures Next(a, e).phase == PhaseAfter(a.phase, e)
  {
  }

  lemma {:induction false} ReadPhase(trace: seq<Entry>)
    ensures Read(trace).phase == PhaseOf(trace)
  {
    if trace != [] {
      var before, e := trace[..|trace| - 1], trace[|trace| - 1];
      hide Next, PhaseAfter;
      ReadPhase(before);
      NextPhase(Read(before), e);
    }
  }

  lemma PhaseNext(trace: seq<Entry>, k: nat)
    requires k < |trace|
    ensures PhaseOf(trace[..k + 1]) == PhaseAfter(PhaseOf(trace[..k]), trace[k])
  {
    assert trace[..k + 1][..k] == trace[..k];
  }

  lemma {:induction false} BrokenStays(trace: seq<Entry>, k: nat)
    requires k <= |trace| && PhaseOf(trace) != Broken
    ensures PhaseOf(trace[..k]) != Broken
    decreases |trace| - k
  {
    if k < |trace| {
      BrokenStays(trace, k + 1);
      PhaseNext(trace, k);
    } else {
      assert trace[..k] == trace;
    }
  }

  /** While nothing ends it, a requested connection stays requested. */
  lemma {:induction false} StaysRequested(trace: seq<Entry>, i: nat, j: nat)
    requires i < j <= |trace| && PhaseOf(trace) != Broken
    requires trace[i] == DataConn(true)
    requires forall k :: i < k < j ==> !EndsConnection(trace[k])
    ensures PhaseOf(trace[..j]) == Asked || PhaseOf(trace[..j]) == Up
    decreases j
  {
    BrokenStays(trace, j);
    PhaseNext(trace, j - 1);
    if i < j - 1 {
      StaysRequested(trace, i, j - 1);
    }
  }

  lemma NeverBroken(xs: seq<Input>)
    requires ArriveActive(xs)
    ensures PhaseOf(Run(xs).trace) == PhaseFor(Run(xs).state)
  {
    RunKeeps(xs);
    ReadPhase(Run(xs).trace);
  }

  /**
   Connection discipline, restarts included: between any two requests sent to the framework,
   the first one ended: a release was sent, or the framework reported RELEASED or DENIED.
   */
  lemma RequestsAreSeparated(xs: seq<Input>, i: nat, j: nat)
    requires ArriveActive(xs) && i < j < |Run(xs).trace|
    requires Run(xs).trace[i] == DataConn(true) && Run(xs).trace[j] == DataConn(true)
    ensures exists k :: i < k < j && EndsConnection(Run(xs).trace[k])
  {
    hide Run;
    NeverBroken(xs);
    var trace := Run(xs).trace;
    BrokenStays(trace, j + 1);
    PhaseNext(trace, j);
    if forall k :: i < k < j ==> !EndsConnection(trace[k]) {
      StaysRequested(trace, i, j);
    }
  }

  /** A request is sent only with none outstanding, a release only for one that is. */
  lemma ConnectionDiscipline(xs: seq<Input>, j: nat)
    requires ArriveActive(xs) && j < |Run(xs).trace|
    ensures Run(xs).trace[j] == DataConn(true) ==> PhaseOf(Run(xs).trace[..j]) == Idle
    ensures Run(xs).trace[j] == DataConn(false) ==>
              PhaseOf(Run(xs).trace[..j]) == Asked || PhaseOf(Run(xs).trace[..j]) == Up
  {
    hide Run;
    NeverBroken(xs);
    var trace := Run(xs).trace;
    BrokenStays(trace, j + 1);
    PhaseNext(trace, j);
  }

  /** A GRANTED that comes after the connection was given back changes nothing but the trace. */
  lemma LateGrantIsIgnored(m: Machine)
    requires Inv(m) && Read(m.trace).phase != Asked
    ensures AfterGranted(m) == Log(m, [Framework(EventGranted)])
    ensures Read(AfterGranted(m).trace) == Read(m.trace)
  {
    ReadNext(m.trace, Framework(EventGranted));
  }

  // ----- who is told which end ----------------------------------------------------

  /** The last the framework reported is the denial of a connection that it had been asked for. */
  ghost predicate Denying(trace: seq<Entry>) {
    trace != [] &&
      var before, e := trace[..|trace| - 1], trace[|trace| - 1];
      if e.Framework? then e.event == EventDenied && PhaseOf(before) == Asked else Denying(before)
  }

  predicate IsFailure(e: Entry) {
    e.OpenStatus? && !e.success
  }

  /** Open failure is told only upon such a denial, and to nobody who was told of success. */
  ghost predicate Justified(trace: seq<Entry>) {
    trace == [] ||
      var before, e := trace[..|trace| - 1], trace[|trace| - 1];
      Justified(before) && (IsFailure(e) ==> Denying(before) && e.handle !in Read(before).told)
  }

  lemma JustifiedNext(trace: seq<Entry>, e: Entry)
    requires Justified(trace) && (IsFailure(e) ==> Denying(trace) && e.handle !in Read(trace).told)
    ensures Justified(trace + [e])
    ensures !e.Framework? ==> Denying(trace + [e]) == Denying(trace)
  {
    assert (trace + [e])[..|trace|] == trace;
  }

  /** Only notices of a denial are failures. */
  lemma {:induction false} JustifiedNotified(trace: seq<Entry>, event: AgpsEvent, kind: NotificationType,
                                             list: seq<Subscriber>)
    requires Justified(trace) && event != EventDenied && event != EventSubscribe
    ensures Justified(Notified(trace, event, kind, list))
    decreases list
  {
    hide Justified;
    if list == [] {
    } else if Selected(kind, list[0]) {
      var told := NoticeOf(event, list[0].connHandle);
      JustifiedNext(trace, told[0]);
      JustifiedNotified(trace + told, event, kind, list[1..]);
    } else {
      JustifiedNotified(trace, event, kind, list[1..]);
    }
  }

  lemma {:induction false} JustifiedDenial(trace: seq<Entry>, list: seq<Subscriber>)
    requires Justified(trace) && Denying(trace) && Read(trace).told == {}
    ensures Justified(Notified(trace, EventDenied, ForAll, list))
    decreases list
  {
    hide Justified, Read;
    if list != [] {
      var told := NoticeOf(EventDenied, list[0].connHandle);
      JustifiedNext(trace, told[0]);
      ReadNext(trace, told[0]);
      JustifiedDenial(trace + told, list[1..]);
    }
  }

  lemma {:induction false} JustifiedErased(trace: seq<Entry>, list: seq<Subscriber>)
    requires Justified(trace)
    ensures Justified(Erased(trace, list))
    decreases list
  {
    hide Justified;
    if list != [] {
      JustifiedNext(trace, Dropped(list[0].connHandle));
      JustifiedErased(trace + [Dropped(list[0].connHandle)], list[1..]);
    }
  }

  lemma SubscribeJustified(m: Machine, s: Subscriber)
    requires Justified(m.trace)
    ensures Justified(AfterSubscribe(m, s).trace)
  {
    hide Justified, Has;
    var listed, granted := Listed(s.connHandle), OpenStatus(s.connHandle, true);
    JustifiedNext(m.trace, listed);
    JustifiedNext(m.trace + [listed], DataConn(true));
    JustifiedNext(m.trace, DataConn(true));
    JustifiedNext(m.trace, granted);
    JustifiedNext(m.trace + [granted], listed);
  }

  lemma UnsubscribeJustified(m: Machine, s: Subscriber)
    requires Justified(m.trace)
    ensures Justified(AfterUnsubscribe(m, s).trace)
  {
    hide Justified, Inactivated, Without, AnyActive;
    var close := CloseStatus(s.connHandle);
    JustifiedNext(m.trace, close);
    JustifiedNext(m.trace + [close], DataConn(false));
    JustifiedNext(m.trace, DataConn(false));
  }

  lemma ReleaseDoneJustified(m: Machine)
    requires Justified(m.trace)
    ensures Justified(ReleaseDone(m).trace)
  {
    hide Justified, Notified, Remaining, AnyActive;
    JustifiedNotified(m.trace, EventReleased, ForInactive, m.list);
    JustifiedNext(Notified(m.trace, EventReleased, ForInactive, m.list), DataConn(true));
  }

  lemma FrameworkJustified(m: Machine, event: AgpsEvent)
    requires Inv(m) && Justified(m.trace)
    requires event == EventGranted || event == EventReleased || event == EventDenied
    ensures Justified(Step(m, FromFramework(event)).trace)
  {
    hide Justified, Notified, Remaining, Read, ReleaseDone;
    var seen := m.trace + [Framework(event)];
    JustifiedNext(m.trace, Framework(event));
    ReadNext(m.trace, Framework(event));
    ReadPhase(m.trace);
    ReleaseDoneJustified(Log(m, [Framework(event)]));
    if event == EventGranted {
      JustifiedNotified(seen, event, ForActive, m.list);
    } else if event == EventReleased {
      JustifiedNotified(seen, event, ForAll, m.list);
    } else if m.state == StatePending {
      assert seen[..|m.trace|] == m.trace;
      JustifiedDenial(seen, m.list);
    }
  }

  lemma StepJustified(m: Machine, x: Input)
    requires Inv(m) && Justified(m.trace)
    ensures Justified(Step(m, x).trace)
  {
    hide Justified, Inv;
    match x
    case Request(s) => SubscribeJustified(m, s);
    case Release(h) => if Has(m.list, h) { UnsubscribeJustified(m, Lookup(m.list, h)); }
    case FromFramework(event) =>
      if event == EventGranted || event == EventReleased || event == EventDenied {
        FrameworkJustified(m, event);
      }
    case Restart =>
      JustifiedErased(m.trace, m.list);
      JustifiedNext(Erased(m.trace, m.list), ModemRestart);
  }

  lemma {:induction false} RunJustified(xs: seq<Input>)
    requires ArriveActive(xs)
    ensures Justified(Run(xs).trace)
  {
    hide Step, Inv;
    if xs != [] {
      RunJustified(xs[..|xs| - 1]);
      RunKeeps(xs[..|xs| - 1]);
      StepJustified(Run(xs[..|xs| - 1]), xs[|xs| - 1]);
    }
  }

  lemma {:induction false} JustifiedAt(trace: seq<Entry>, j: nat)
    requires j < |trace| && Justified(trace) && IsFailure(trace[j])
    ensures Denying(trace[..j]) && trace[j].handle !in Read(trace[..j]).told
    decreases |trace|
  {
    hide Denying, Read;
    if j < |trace| - 1 {
      JustifiedAt(trace[..|trace| - 1], j);
      assert trace[..|trace| - 1][..j] == trace[..j];
    }
  }

  /** Where the denial is. */
  lemma {:induction false} DenialOf(trace: seq<Entry>) returns (k: nat)
    requires Denying(trace)
    ensures k < |trace| && trace[k] == Framework(EventDenied) && PhaseOf(trace[..k]) == Asked
    ensures forall i :: k < i < |trace| ==> !trace[i].Framework?
  {
    var before := trace[..|trace| - 1];
    if trace[|trace| - 1].Framework? {
      k := |before|;
    } else {
      k := DenialOf(before);
      assert before[..k] == trace[..k];
    }
  }

  /**
   In every run, open failure is told only after the framework denied a connection it had been
   asked for, with nothing else from the framework between, and never to anybody who was told of
   success and of nothing final since.
   */
  lemma FailureFollowsDenial(xs: seq<Input>, j: nat)
    requires ArriveActive(xs) && j < |Run(xs).trace| && IsFailure(Run(xs).trace[j])
    ensures Run(xs).trace[j].handle !in Read(Run(xs).trace[..j]).told
    ensures exists k :: 0 <= k < j && Run(xs).trace[k] == Framework(EventDenied)
                        && PhaseOf(Run(xs).trace[..k]) == Asked
                        && forall i :: k < i < j ==> !Run(xs).trace[i].Framework?
  {
    hide Run;
    RunJustified(xs);
    var trace := Run(xs).trace;
    JustifiedAt(trace, j);
    var k := DenialOf(trace[..j]);
    assert trace[..j][..k] == trace[..k];
    assert forall i :: 0 <= i < j ==> trace[..j][i] == trace[i];
  }

  /** The end of a release tells close to those who waited for it, and keeps the others. */
  lemma ReleaseDoneNotices(m: Machine)
    ensures var a, b := Read(m.trace), Read(ReleaseDone(m).trace);
            && b.failed == a.failed && b.closed == a.closed + Picked(ForInactive, m.list)
            && forall s :: s in ReleaseDone(m).list <==> s in m.list && !s.isInactive
  {
    ReadNotified(m.trace, EventReleased, ForInactive, m.list);
    ReadNext(Notified(m.trace, EventReleased, ForInactive, m.list), DataConn(true));
    forall s ensures s in Remaining(ForInactive, true, m.list) <==> s in m.list && !s.isInactive {
      RemainingMember(ForInactive, m.list, s);
    }
    hide Read, Notified, Picked, Remaining, AnyActive;
  }

  lemma EndNotices(m: Machine, event: AgpsEvent)
    requires event == EventReleased || event == EventDenied
    ensures var a, told := Read(m.trace), NotifyAll(m, event, true, ForAll);
            var b := Read(told.trace);
            && told.list == []
            && (event == EventDenied ==> b.failed == a.failed + Handles(m.list) && b.closed == a.closed)
            && (event == EventReleased ==> b.closed == a.closed + Handles(m.list) && b.failed == a.failed)
  {
    ReadNotified(m.trace, event, ForAll, m.list);
    PickedAll(m.list);
    hide Read, Notified, Picked, Handles, Remaining;
  }

  /**
   And which end the framework's word brings: a denial of what was asked for tells everybody
   listed open failure, a connection taken away tells everybody listed close, and the end of a
   release, however it is reported, tells close to those who waited for it.
   */
  lemma FinalNotices(m: Machine, event: AgpsEvent)
    ensures var a, after := Read(m.trace), Step(m, FromFramework(event));
            var b := Read(after.trace);
            var denied, taken := event == EventDenied && m.state == StatePending,
                                 event == EventReleased && m.state == StateAcquired;
            if denied then b.failed == a.failed + Handles(m.list) && b.closed == a.closed && after.list == []
            else if taken then b.closed == a.closed + Handles(m.list) && b.failed == a.failed && after.list == []
            else if m.state == StateReleasing && (event == EventReleased || event == EventDenied) then
              && b.failed == a.failed && b.closed == a.closed + Picked(ForInactive, m.list)
              && forall s :: s in after.list <==> s in m.list && !s.isInactive
            else b.failed == a.failed && b.closed == a.closed
  {
    hide Read, Notified, Handles, Picked, Remaining, ReleaseDone, NotifyAll;
    var seen := Log(m, [Framework(event)]);
    ReadNext(m.trace, Framework(event));
    if event == EventGranted {
      GrantNotices(seen.(state := StateAcquired));
    } else if m.state == StateReleasing {
      ReleaseDoneNotices(seen);
    } else if event == EventReleased || event == EventDenied {
      EndNotices(seen.(state := StateReleased), event);
    }
  }

  lemma GrantNotices(m: Machine)
    ensures var a, b := Read(m.trace), Read(NotifyAll(m, EventGranted, false, ForActive).trace);
            b.failed == a.failed && b.closed == a.closed
  {
    ReadNotified(m.trace, EventGranted, ForActive, m.list);
    hide Read, Notified, Picked;
  }

  lemma InactivatedMember(list: seq<Subscriber>, s: Subscriber, t: Subscriber)
    requires Distinct(list) && s in list
    ensures s.(isInactive := true) in Inactivated(list, s.connHandle)
    ensures t.connHandle != s.connHandle ==> (t in Inactivated(list, s.connHandle) <==> t in list)
  {
    var left := Inactivated(list, s.connHandle);
    var i :| 0 <= i < |list| && list[i] == s;
    assert left[i] == s.(isInactive := true);
    if t.connHandle != s.connHandle && t in list {
      var j :| 0 <= j < |list| && list[j] == t;
      assert left[j] == t;
    }
  }

  /**
   Who gives the connection up and does not wait is told close at once and is off the list; who
   waits is told nothing yet and stays, inactive.  Nobody else is told or moved.
   */
  lemma LeavingTells(m: Machine, s: Subscriber, t: Subscriber)
    requires Inv(m) && s in m.list && t.connHandle != s.connHandle
    ensures var a, after := Read(m.trace), AfterUnsubscribe(m, s);
            var b := Read(after.trace);
            && b.failed == a.failed && (t in after.list <==> t in m.list)
            && (t.connHandle in b.told <==> t.connHandle in a.told)
            && (s.waitForCloseComplete ==> b.closed == a.closed && s.(isInactive := true) in after.list)
            && (!s.waitForCloseComplete ==>
                  b.closed == a.closed + multiset{s.connHandle} && !Has(after.list, s.connHandle))
  {
    var left := Leave(m, s);
    ReadUnsubscribe(m, s);
    ReadLeave(m, s);
    InactivatedMember(m.list, s, t);
    WithoutMember(m.list, s.connHandle, t);
    forall i | 0 <= i < |Without(m.list, s.connHandle)|
      ensures Without(m.list, s.connHandle)[i].connHandle != s.connHandle
    {
      WithoutMember(m.list, s.connHandle, Without(m.list, s.connHandle)[i]);
    }
    hide Read, Without, Inactivated, AfterUnsubscribe;
  }
}
