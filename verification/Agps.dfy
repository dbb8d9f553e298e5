/**
 The AGPS data-connection state machine: who asked for the connection, what the
 framework was asked for, and what every subscriber was told.

 `Machine` is the value of one state machine together with the trace of everything
 that crossed its boundary.  The class `AgpsStateMachine` is the machine as the
 handlers run it, in place; each handler is proved to take its value to the
 specification function of the same event.
 */
module Agps {

  datatype AgpsState = StateReleased | StatePending | StateAcquired | StateReleasing

  datatype AgpsEvent = EventSubscribe | EventUnsubscribe | EventGranted | EventReleased | EventDenied

  datatype NotificationType = ForAll | ForInactive | ForActive

  datatype Subscriber = Subscriber(connHandle: int, waitForCloseComplete: bool, isInactive: bool)

  /** One thing that crossed the boundary of a machine, in order of occurrence. */
  datatype Entry =
    | Listed(handle: int)                    // the subscriber was put on the list
    | OpenStatus(handle: int, success: bool) // ATL open status sent to the modem
    | CloseStatus(handle: int)               // ATL close status sent to the modem
    | DataConn(request: bool)                // request (or release) sent to the framework
    | Framework(event: AgpsEvent)            // GRANTED, RELEASED or DENIED came from the framework
    | Dropped(handle: int)                   // erased without notice by a modem restart
    | ModemRestart

  datatype Machine = Machine(state: AgpsState, list: seq<Subscriber>, trace: seq<Entry>)

  const INITIAL_MACHINE := Machine(StateReleased, [], [])

  // ----- the subscriber list ------------------------------------------------------

  predicate Has(list: seq<Subscriber>, handle: int) {
    exists i :: 0 <= i < |list| && list[i].connHandle == handle
  }

  ghost predicate Distinct(list: seq<Subscriber>) {
    forall i, j :: 0 <= i < j < |list| ==> list[i].connHandle != list[j].connHandle
  }

  predicate AnyActive(list: seq<Subscriber>) {
    exists i :: 0 <= i < |list| && !list[i].isInactive
  }

  ghost function Handles(list: seq<Subscriber>): multiset<int> {
    if list == [] then multiset{} else multiset{list[0].connHandle} + Handles(list[1..])
  }

  predicate Selected(kind: NotificationType, s: Subscriber) {
    match kind
    case ForAll => true
    case ForInactive => s.isInactive
    case ForActive => !s.isInactive
  }

  /** What one subscriber is told about an event. */
  function NoticeOf(event: AgpsEvent, handle: int): seq<Entry> {
    match event
    case EventGranted => [OpenStatus(handle, true)]
    case EventDenied => [OpenStatus(handle, false)]
    case EventUnsubscribe => [CloseStatus(handle)]
    case EventReleased => [CloseStatus(handle)]
    case EventSubscribe => []
  }

  /** The trace after every selected subscriber of the list has been told, in list order. */
  ghost function Notified(trace: seq<Entry>, event: AgpsEvent, kind: NotificationType, list: seq<Subscriber>)
    : seq<Entry>
    decreases list
  {
    if list == [] then trace
    else if Selected(kind, list[0])
    then Notified(trace + NoticeOf(event, list[0].connHandle), event, kind, list[1..])
    else Notified(trace, event, kind, list[1..])
  }

  /** The list after the selected subscribers were told and, if so asked, deleted. */
  ghost function Remaining(kind: NotificationType, delete: bool, list: seq<Subscriber>): seq<Subscriber> {
    if list == [] then []
    else if delete && Selected(kind, list[0]) then Remaining(kind, delete, list[1..])
    else [list[0]] + Remaining(kind, delete, list[1..])
  }

  ghost function Without(list: seq<Subscriber>, handle: int): seq<Subscriber> {
    if list == [] then []
    else if list[0].connHandle == handle then Without(list[1..], handle)
    else [list[0]] + Without(list[1..], handle)
  }

  ghost function Inactivated(list: seq<Subscriber>, handle: int): seq<Subscriber> {
    seq(|list|, i requires 0 <= i < |list| =>
      if list[i].connHandle == handle then list[i].(isInactive := true) else list[i])
  }

  ghost function Erased(trace: seq<Entry>, list: seq<Subscriber>): seq<Entry>
    decreases list
  {
    if list == [] then trace else Erased(trace + [Dropped(list[0].connHandle)], list[1..])
  }

  // ----- what each event does -----------------------------------------------------

  ghost function Log(m: Machine, entries: seq<Entry>): Machine {
    m.(trace := m.trace + entries)
  }

  ghost function Add(m: Machine, s: Subscriber): Machine {
    if Has(m.list, s.connHandle) then m
    else Machine(m.state, m.list + [s], m.trace + [Listed(s.connHandle)])
  }

  ghost function NotifyAll(m: Machine, event: AgpsEvent, delete: bool, kind: NotificationType): Machine {
    Machine(m.state, Remaining(kind, delete, m.list), Notified(m.trace, event, kind, m.list))
  }

  ghost function AfterSubscribe(m: Machine, s: Subscriber): Machine {
    match m.state
    case StateReleased => Log(Add(m, s), [DataConn(true)]).(state := StatePending)
    case StatePending => Add(m, s)
    case StateAcquired => Add(Log(m, [OpenStatus(s.connHandle, true)]), s)
    case StateReleasing => Add(m, s)
  }

  /** The list and notices of an unsubscribe, before the state is reconsidered. */
  ghost function Leave(m: Machine, s: Subscriber): Machine {
    if s.waitForCloseComplete then m.(list := Inactivated(m.list, s.connHandle))
    else Log(m, [CloseStatus(s.connHandle)]).(list := Without(m.list, s.connHandle))
  }

  ghost function AfterUnsubscribe(m: Machine, s: Subscriber): Machine {
    match m.state
    case StateReleased => Log(m, [CloseStatus(s.connHandle)])
    case StateReleasing =>
      var left := Leave(m, s);
      if left.list == [] then left.(state := StateReleased) else left
    case _ =>
      var left := Leave(m, s);
      if left.list == [] then Log(left, [DataConn(false)]).(state := StateReleased)
      else if !AnyActive(left.list) then Log(left, [DataConn(false)]).(state := StateReleasing)
      else left
  }

  /** Both RELEASED and DENIED end a pending release this way. */
  ghost function ReleaseDone(m: Machine): Machine {
    var told := NotifyAll(m, EventReleased, true, ForInactive);
    if AnyActive(told.list) then Log(told, [DataConn(true)]).(state := StatePending)
    else told.(state := StateReleased)
  }

  ghost function AfterGranted(m: Machine): Machine {
    var seen := Log(m, [Framework(EventGranted)]);
    if m.state == StatePending
    then NotifyAll(seen.(state := StateAcquired), EventGranted, false, ForActive)
    else seen
  }

  ghost function AfterReleased(m: Machine): Machine {
    var seen := Log(m, [Framework(EventReleased)]);
    match m.state
    case StateAcquired => NotifyAll(seen.(state := StateReleased), EventReleased, true, ForAll)
    case StateReleasing => ReleaseDone(seen)
    case _ => seen
  }

  ghost function AfterDenied(m: Machine): Machine {
    var seen := Log(m, [Framework(EventDenied)]);
    match m.state
    case StatePending => NotifyAll(seen.(state := StateReleased), EventDenied, true, ForAll)
    case StateReleasing => ReleaseDone(seen)
    case _ => seen
  }

  ghost function AfterModemRestart(m: Machine): Machine {
    Machine(m.state, [], Erased(m.trace, m.list) + [ModemRestart])
  }

  /** An event together with the subscriber it concerns. */
  ghost function AfterEvent(m: Machine, event: AgpsEvent, s: Subscriber): Machine {
    match event
    case EventSubscribe => AfterSubscribe(m, s)
    case EventUnsubscribe => AfterUnsubscribe(m, s)
    case EventGranted => AfterGranted(m)
    case EventReleased => AfterReleased(m)
    case EventDenied => AfterDenied(m)
  }

  /** An iterator at the head of `rest`: what it reads, what erasing leaves, where advancing goes. */
  lemma Cursor<T>(kept: seq<T>, rest: seq<T>)
    requires rest != []
    ensures (kept + rest)[|kept|] == rest[0]
    ensures (kept + rest)[..|kept|] + (kept + rest)[|kept| + 1..] == kept + rest[1..]
    ensures kept + rest == (kept + [rest[0]]) + rest[1..]
  {
  }

  // ----- the machine, in place ----------------------------------------------------

  class AgpsStateMachine {
    var mState: AgpsState
    var mSubscriberList: seq<Subscriber>
    var mCurrentSubscriber: Subscriber
    ghost var trace: seq<Entry>

    ghost function View(): Machine
      reads this
    {
      Machine(mState, mSubscriberList, trace)
    }

    constructor ()
      ensures View() == INITIAL_MACHINE
    {
      mState := StateReleased;
      mSubscriberList := [];
      mCurrentSubscriber := Subscriber(0, false, false);
      trace := [];
    }

    method SetCurrentSubscriber(s: Subscriber)
      modifies this`mCurrentSubscriber
      ensures mCurrentSubscriber == s
    {
      mCurrentSubscriber := s;
    }

    method ProcessAgpsEvent(event: AgpsEvent)
      modifies this
      ensures View() == AfterEvent(old(View()), event, old(mCurrentSubscriber))
    {
      match event {
        case EventSubscribe => ProcessAgpsEventSubscribe();
        case EventUnsubscribe => ProcessAgpsEventUnsubscribe();
        case EventGranted => ProcessAgpsEventGranted();
        case EventReleased => ProcessAgpsEventReleased();
        case EventDenied => ProcessAgpsEventDenied();
      }
    }

    method ProcessAgpsEventSubscribe()
      modifies this
      ensures View() == AfterSubscribe(old(View()), old(mCurrentSubscriber))
    {
      match mState {
        case StateReleased =>
          AddSubscriber(mCurrentSubscriber);
          RequestOrReleaseDataConn(true);
          TransitionState(StatePending);
        case StatePending =>
          AddSubscriber(mCurrentSubscriber);
        case StateAcquired =>
          NotifyEventToSubscriber(EventGranted, mCurrentSubscriber, false);
          AddSubscriber(mCurrentSubscriber);
        case StateReleasing =>
          AddSubscriber(mCurrentSubscriber);
      }
    }

    method ProcessAgpsEventUnsubscribe()
      modifies this
      ensures View() == AfterUnsubscribe(old(View()), old(mCurrentSubscriber))
    {
      match mState {
        case StateReleased =>
          NotifyEventToSubscriber(EventUnsubscribe, mCurrentSubscriber, false);
        case StateReleasing =>
          if mCurrentSubscriber.waitForCloseComplete {
            MarkCurrentInactive();
          } else {
            NotifyEventToSubscriber(EventUnsubscribe, mCurrentSubscriber, true);
          }
          if mSubscriberList == [] {
            TransitionState(StateReleased);
          }
        case _ =>
          if mCurrentSubscriber.waitForCloseComplete {
            MarkCurrentInactive();
          } else {
            NotifyEventToSubscriber(EventUnsubscribe, mCurrentSubscriber, true);
          }
          var anyActive := AnyActiveSubscribers();
          if mSubscriberList == [] {
            TransitionState(StateReleased);
            RequestOrReleaseDataConn(false);
          } else if !anyActive {
            TransitionState(StateReleasing);
            RequestOrReleaseDataConn(false);
          }
      }
    }

    method ProcessAgpsEventGranted()
      modifies this
      ensures View() == AfterGranted(old(View()))
    {
      trace := trace + [Framework(EventGranted)];
      if mState == StatePending {
        TransitionState(StateAcquired);
        NotifyAllSubscribers(EventGranted, false, ForActive);
      }
    }

    method ProcessAgpsEventReleased()
      modifies this
      ensures View() == AfterReleased(old(View()))
    {
      trace := trace + [Framework(EventReleased)];
      match mState {
        case StateReleased =>
        case StatePending =>
        case StateAcquired =>
          TransitionState(StateReleased);
          NotifyAllSubscribers(EventReleased, true, ForAll);
        case StateReleasing =>
          FinishReleasing();
      }
    }

    method ProcessAgpsEventDenied()
      modifies this
      ensures View() == AfterDenied(old(View()))
    {
      trace := trace + [Framework(EventDenied)];
      match mState {
        case StateReleased =>
        case StateAcquired =>
        case StateReleasing =>
          FinishReleasing();
        case StatePending =>
          TransitionState(StateReleased);
          NotifyAllSubscribers(EventDenied, true, ForAll);
      }
    }

    /** The branch the RELEASED and DENIED handlers share in state RELEASING. */
    method FinishReleasing()
      modifies this
      ensures View() == ReleaseDone(old(View()))
    {
      NotifyAllSubscribers(EventReleased, true, ForInactive);
      var anyActive := AnyActiveSubscribers();
      if anyActive {
        TransitionState(StatePending);
        RequestOrReleaseDataConn(true);
      } else {
        TransitionState(StateReleased);
      }
    }

    method RequestOrReleaseDataConn(request: bool)
      modifies this`trace
      ensures View() == Log(old(View()), [DataConn(request)])
    {
      trace := trace + [DataConn(request)];
    }

    method TransitionState(newState: AgpsState)
      modifies this`mState
      ensures View() == old(View()).(state := newState)
    {
      mState := newState;
    }

    method NotifyAllSubscribers(event: AgpsEvent, delete: bool, kind: NotificationType)
      modifies this`mSubscriberList, this`trace
      ensures View() == NotifyAll(old(View()), event, delete, kind)
    {
      ghost var before, was := mSubscriberList, trace;
      ghost var kept, rest := [], mSubscriberList;
      var it := 0;
      while it < |mSubscriberList|
        invariant mSubscriberList == kept + rest && it == |kept|
        invariant kept + Remaining(kind, delete, rest) == Remaining(kind, delete, before)
        invariant Notified(trace, event, kind, rest) == Notified(was, event, kind, before)
        decreases |rest|
      {
        Cursor(kept, rest);
        var subscriber := mSubscriberList[it];
        ghost var tail := Remaining(kind, delete, rest[1..]);
        assert (kept + [subscriber]) + tail == kept + ([subscriber] + tail);
        if Selected(kind, subscriber) {
          it := NotifyAt(it, event, delete);
          if !delete { kept := kept + [subscriber]; }
        } else {
          it, kept := it + 1, kept + [subscriber];
        }
        rest := rest[1..];
      }
    }

    /** One selected subscriber: tell it, then erase it or step past it. */
    method NotifyAt(it: nat, event: AgpsEvent, delete: bool) returns (next: nat)
      requires it < |mSubscriberList|
      modifies this`mSubscriberList, this`trace
      ensures trace == old(trace) + NoticeOf(event, old(mSubscriberList)[it].connHandle)
      ensures delete ==> next == it && mSubscriberList == old(mSubscriberList[..it] + mSubscriberList[it + 1..])
      ensures !delete ==> next == it + 1 && mSubscriberList == old(mSubscriberList)
    {
      NotifyEventToSubscriber(event, mSubscriberList[it], false);
      if delete {
        mSubscriberList := mSubscriberList[..it] + mSubscriberList[it + 1..];
        return it;
      }
      return it + 1;
    }

    method NotifyEventToSubscriber(event: AgpsEvent, subscriber: Subscriber, delete: bool)
      modifies this`mSubscriberList, this`trace
      ensures trace == old(trace) + NoticeOf(event, subscriber.connHandle)
      ensures delete ==> mSubscriberList == Without(old(mSubscriberList), subscriber.connHandle)
      ensures !delete ==> mSubscriberList == old(mSubscriberList)
    {
      match event {
        case EventGranted => trace := trace + [OpenStatus(subscriber.connHandle, true)];
        case EventDenied => trace := trace + [OpenStatus(subscriber.connHandle, false)];
        case EventUnsubscribe => trace := trace + [CloseStatus(subscriber.connHandle)];
        case EventReleased => trace := trace + [CloseStatus(subscriber.connHandle)];
        case EventSubscribe =>
      }
      if delete {
        DeleteSubscriber(subscriber);
      }
    }

    method AddSubscriber(s: Subscriber)
      modifies this`mSubscriberList, this`trace
      ensures View() == Add(old(View()), s)
    {
      var it := 0;
      while it < |mSubscriberList|
        invariant 0 <= it <= |mSubscriberList|
        invariant forall k :: 0 <= k < it ==> mSubscriberList[k].connHandle != s.connHandle
      {
        if mSubscriberList[it].connHandle == s.connHandle {
          return;
        }
        it := it + 1;
      }
      mSubscriberList := mSubscriberList + [s];
      trace := trace + [Listed(s.connHandle)];
    }

    method DeleteSubscriber(s: Subscriber)
      modifies this`mSubscriberList
      ensures mSubscriberList == Without(old(mSubscriberList), s.connHandle)
    {
      ghost var kept, rest := [], mSubscriberList;
      var it := 0;
      while it < |mSubscriberList|
        invariant mSubscriberList == kept + rest && it == |kept|
        invariant kept + Without(rest, s.connHandle) == Without(old(mSubscriberList), s.connHandle)
        decreases |rest|
      {
        Cursor(kept, rest);
        var subscriber := mSubscriberList[it];
        if subscriber.connHandle == s.connHandle {
          mSubscriberList := mSubscriberList[..it] + mSubscriberList[it + 1..];
        } else {
          it, kept := it + 1, kept + [subscriber];
        }
        rest := rest[1..];
        assert mSubscriberList == kept + rest;
      }
    }

    /** `mCurrentSubscriber` is the listed subscriber itself, so marking it marks the list. */
    method MarkCurrentInactive()
      modifies this`mCurrentSubscriber, this`mSubscriberList
      ensures mCurrentSubscriber == old(mCurrentSubscriber).(isInactive := true)
      ensures mSubscriberList == Inactivated(old(mSubscriberList), old(mCurrentSubscriber).connHandle)
    {
      mCurrentSubscriber := mCurrentSubscriber.(isInactive := true);
      var handle := mCurrentSubscriber.connHandle;
      var list := mSubscriberList;
      mSubscriberList := seq(|list|, i requires 0 <= i < |list| =>
        if list[i].connHandle == handle then list[i].(isInactive := true) else list[i]);
    }

    method AnyActiveSubscribers() returns (any: bool)
      ensures any == AnyActive(mSubscriberList)
    {
      var it := 0;
      while it < |mSubscriberList|
        invariant 0 <= it <= |mSubscriberList|
        invariant forall k :: 0 <= k < it ==> mSubscriberList[k].isInactive
      {
        if !mSubscriberList[it].isInactive {
          return true;
        }
        it := it + 1;
      }
      return false;
    }

    /** The first subscriber with the handle, or none. */
    method GetSubscriber(handle: int) returns (found: bool, s: Subscriber)
      ensures found == Has(mSubscriberList, handle)
      ensures found ==> s == Lookup(mSubscriberList, handle)
    {
      var it := 0;
      while it < |mSubscriberList|
        invariant 0 <= it <= |mSubscriberList|
        invariant forall k :: 0 <= k < it ==> mSubscriberList[k].connHandle != handle
        invariant Has(mSubscriberList, handle) ==>
                    Has(mSubscriberList[it..], handle)
                    && Lookup(mSubscriberList, handle) == Lookup(mSubscriberList[it..], handle)
      {
        if mSubscriberList[it].connHandle == handle {
          return true, mSubscriberList[it];
        }
        assert mSubscriberList[it..][1..] == mSubscriberList[it + 1..];
        it := it + 1;
      }
      return false, Subscriber(handle, false, false);
    }

    method DropAllSubscribers()
      modifies this`mSubscriberList, this`trace
      ensures View() == AfterModemRestart(old(View()))
    {
      while mSubscriberList != []
        invariant Erased(trace, mSubscriberList) == Erased(old(trace), old(mSubscriberList))
        decreases |mSubscriberList|
      {
        trace := trace + [Dropped(mSubscriberList[0].connHandle)];
        mSubscriberList := mSubscriberList[1..];
      }
      trace := trace + [ModemRestart];
    }
  }

  ghost function Lookup(list: seq<Subscriber>, handle: int): (s: Subscriber)
    requires Has(list, handle)
    ensures s in list && s.connHandle == handle
  {
    if list[0].connHandle == handle then list[0] else
      assert exists i :: 0 <= i < |list[1..]| && list[1..][i].connHandle == handle by {
        var i :| 0 <= i < |list| && list[i].connHandle == handle;
        assert list[1..][i - 1] == list[i];
      }
      Lookup(list[1..], handle)
  }
}
