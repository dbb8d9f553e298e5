/**
 The AGPS manager: which machine a request goes to, which machine a handle is released
 from, and what that rules out.  Every subscriber the manager makes is active and does not
 wait for the close, so state RELEASING is never reached through it.
 */
module AgpsManager {
  import opened Agps
  import opened AgpsRuns
  import opened Wrappers

  /** `refused` lists the handles answered with open failure because there is no machine. */
  datatype Manager = Manager(agnss: Option<Machine>, internet: Option<Machine>, refused: seq<int>)

  const INITIAL_MANAGER := Manager(None, None, [])

  const TYPE_INVALID := -1
  const TYPE_SUPL := 1
  const TYPE_SUPL_ES := 5

  predicate UsesAgnss(agpsType: int) {
    agpsType == TYPE_INVALID || agpsType == TYPE_SUPL || agpsType == TYPE_SUPL_ES
  }

  /** An emergency request is made an ordinary one when no emergency PDN is configured. */
  function Routed(agpsType: int, emergencyPdn: bool): int {
    if !emergencyPdn && agpsType == TYPE_SUPL_ES then TYPE_SUPL else agpsType
  }

  ghost function OnNif(m: Manager, agpsType: int, x: Input): Manager {
    if UsesAgnss(agpsType)
    then (if m.agnss.Some? then m.(agnss := Some(Step(m.agnss.value, x))) else m)
    else (if m.internet.Some? then m.(internet := Some(Step(m.internet.value, x))) else m)
  }

  predicate HasNif(m: Manager, agpsType: int) {
    if UsesAgnss(agpsType) then m.agnss.Some? else m.internet.Some?
  }

  datatype Call =
    | Create(wwan: bool, suplAndEs: bool, agpsCapable: bool)
    | RequestATL(handle: int, agpsType: int, emergencyPdn: bool)
    | ReleaseATL(handle: int)
    | ReportATL(event: AgpsEvent, agpsType: int)
    | ModemSSR

  ghost function AfterCall(m: Manager, c: Call): Manager {
    match c
    case Create(wwan, suplAndEs, agpsCapable) =>
      m.(internet := if m.internet.None? && wwan then Some(INITIAL_MACHINE) else m.internet,
         agnss := if m.agnss.None? && agpsCapable && suplAndEs then Some(INITIAL_MACHINE) else m.agnss)
    case RequestATL(h, agpsType, emergencyPdn) =>
      var to := Routed(agpsType, emergencyPdn);
      if HasNif(m, to) then OnNif(m, to, Request(Subscriber(h, false, false)))
      else m.(refused := m.refused + [h])
    case ReleaseATL(h) =>
      if m.agnss.Some? && Has(m.agnss.value.list, h) then m.(agnss := Some(Step(m.agnss.value, Release(h))))
      else if m.internet.Some? && Has(m.internet.value.list, h)
      then m.(internet := Some(Step(m.internet.value, Release(h))))
      else m
    case ReportATL(event, agpsType) => OnNif(m, agpsType, FromFramework(event))
    case ModemSSR =>
      m.(agnss := if m.agnss.Some? then Some(Step(m.agnss.value, Restart)) else None,
         internet := if m.internet.Some? then Some(Step(m.internet.value, Restart)) else None)
  }

  // ----- the manager, in place ----------------------------------------------------

  class AgpsManager {
    var mAgnssNif: AgpsStateMachine?
    var mInternetNif: AgpsStateMachine?
    ghost var refused: seq<int>

    ghost predicate Valid()
      reads this
    {
      mAgnssNif != null ==> mAgnssNif != mInternetNif
    }

    ghost function View(): Manager
      reads this, mAgnssNif, mInternetNif
    {
      Manager(if mAgnssNif == null then None else Some(mAgnssNif.View()),
              if mInternetNif == null then None else Some(mInternetNif.View()),
              refused)
    }

    constructor ()
      ensures Valid() && View() == INITIAL_MANAGER
    {
      mAgnssNif := null;
      mInternetNif := null;
      refused := [];
    }

    method CreateAgpsStateMachines(wwan: bool, suplAndEs: bool, agpsCapable: bool)
      requires Valid()
      modifies this
      ensures Valid() && View() == AfterCall(old(View()), Create(wwan, suplAndEs, agpsCapable))
    {
      if mInternetNif == null && wwan {
        mInternetNif := new AgpsStateMachine();
      }
      if agpsCapable {
        if mAgnssNif == null && suplAndEs {
          mAgnssNif := new AgpsStateMachine();
        }
      }
    }

    method GetAgpsStateMachine(agpsType: int) returns (sm: AgpsStateMachine?)
      ensures sm == if UsesAgnss(agpsType) then mAgnssNif else mInternetNif
    {
      if agpsType == TYPE_INVALID || agpsType == TYPE_SUPL || agpsType == TYPE_SUPL_ES {
        return mAgnssNif;
      }
      return mInternetNif;
    }

    method RequestATL(handle: int, agpsType: int, emergencyPdn: bool)
      requires Valid()
      modifies this, mAgnssNif, mInternetNif
      ensures Valid() && View() == AfterCall(old(View()), Call.RequestATL(handle, agpsType, emergencyPdn))
    {
      var to := agpsType;
      if !emergencyPdn && agpsType == TYPE_SUPL_ES {
        to := TYPE_SUPL;
      }
      var sm := GetAgpsStateMachine(to);
      if sm == null {
        refused := refused + [handle];
        return;
      }
      sm.SetCurrentSubscriber(Subscriber(handle, false, false));
      sm.ProcessAgpsEvent(EventSubscribe);
    }

    method ReleaseATL(handle: int)
      requires Valid()
      modifies this, mAgnssNif, mInternetNif
      ensures Valid() && View() == AfterCall(old(View()), Call.ReleaseATL(handle))
    {
      var sm: AgpsStateMachine? := null;
      var found, s := false, Subscriber(handle, false, false);
      if mAgnssNif != null {
        found, s := mAgnssNif.GetSubscriber(handle);
        if found { sm := mAgnssNif; }
      }
      if !found && mInternetNif != null {
        found, s := mInternetNif.GetSubscriber(handle);
        if found { sm := mInternetNif; }
      }
      if sm == null {
        return;
      }
      sm.SetCurrentSubscriber(s);
      sm.ProcessAgpsEvent(EventUnsubscribe);
    }

    /** The three framework reports; the source dereferences the machine, so there must be one. */
    method ReportATL(event: AgpsEvent, agpsType: int)
      requires Valid()
      requires event == EventGranted || event == EventReleased || event == EventDenied
      requires (if UsesAgnss(agpsType) then mAgnssNif else mInternetNif) != null
      modifies this, mAgnssNif, mInternetNif
      ensures Valid() && View() == AfterCall(old(View()), Call.ReportATL(event, agpsType))
    {
      var sm := GetAgpsStateMachine(agpsType);
      sm.ProcessAgpsEvent(event);
    }

    method HandleModemSSR()
      requires Valid()
      modifies this, mAgnssNif, mInternetNif
      ensures Valid() && View() == AfterCall(old(View()), ModemSSR)
    {
      if mAgnssNif != null {
        mAgnssNif.DropAllSubscribers();
      }
      if mInternetNif != null {
        mInternetNif.DropAllSubscribers();
      }
    }
  }

  // ----- runs of the manager ------------------------------------------------------

  ghost function Run(cs: seq<Call>): Manager {
    if cs == [] then INITIAL_MANAGER else AfterCall(Run(cs[..|cs| - 1]), cs[|cs| - 1])
  }

  /** Active subscribers that do not wait, and so a machine that is never RELEASING. */
  ghost predicate PlainShape(m: Machine) {
    && m.state != StateReleasing
    && (m.state == StateReleased ==> m.list == [])
    && forall s :: s in m.list ==> !s.waitForCloseComplete && !s.isInactive
  }

  ghost predicate Plain(m: Machine) {
    Inv(m) && PlainShape(m)
  }

  ghost predicate PlainManager(m: Manager) {
    && (m.agnss.Some? ==> Plain(m.agnss.value))
    && (m.internet.Some? ==> Plain(m.internet.value))
  }

  ghost predicate PlainInput(x: Input) {
    x.Request? ==> !x.s.waitForCloseComplete && !x.s.isInactive
  }

  lemma PlainRelease(m: Machine, h: int)
    requires PlainShape(m) && Has(m.list, h)
    ensures PlainShape(Step(m, Release(h)))
  {
    var left := Without(m.list, h);
    forall s | s in left ensures s in m.list {
      WithoutMember(m.list, h, s);
    }
    if left != [] { assert left[0] in left; }
  }

  lemma PlainStep(m: Machine, x: Input)
    requires Plain(m) && PlainInput(x)
    ensures Plain(Step(m, x))
  {
    hide Sound, Read, Notified, Erased;
    StepKeeps(m, x);
    match x
    case Request(s) =>
    case Release(h) => if Has(m.list, h) { PlainRelease(m, h); }
    case FromFramework(event) =>
      RemainingAll(ForActive, m.list);
      PickedAll(m.list);
    case Restart =>
  }

  lemma InitialPlain()
    ensures Plain(INITIAL_MACHINE)
  {
    InitialInv();
  }

  /**
   Through the manager no machine is ever RELEASING and every listed subscriber is active;
   both machines keep the whole invariant of `AgpsRuns`.
   */
  lemma {:induction false} ReleasingIsUnreachable(cs: seq<Call>)
    ensures PlainManager(Run(cs))
  {
    hide Inv, PlainShape, Step;
    if cs != [] {
      ReleasingIsUnreachable(cs[..|cs| - 1]);
      var m, c := Run(cs[..|cs| - 1]), cs[|cs| - 1];
      InitialPlain();
      var x := match c
        case RequestATL(h, _, _) => Request(Subscriber(h, false, false))
        case ReleaseATL(h) => Release(h)
        case ReportATL(event, _) => FromFramework(event)
        case _ => Restart;
      if m.agnss.Some? { PlainStep(m.agnss.value, x); }
      if m.internet.Some? { PlainStep(m.internet.value, x); }
    }
  }

  /** The RELEASED branch of the unsubscribe handler is dead: a machine in that state lists nobody. */
  lemma ReleasedHandlesNobody(cs: seq<Call>, h: int)
    ensures var m := Run(cs).agnss; m.Some? && m.value.state == StateReleased ==> !Has(m.value.list, h)
    ensures var m := Run(cs).internet; m.Some? && m.value.state == StateReleased ==> !Has(m.value.list, h)
  {
    ReleasingIsUnreachable(cs);
  }

  // ----- which machine a call reaches ---------------------------------------------

  predicate Holds(m: Option<Machine>, h: int) {
    m.Some? && Has(m.value.list, h)
  }

  lemma SubscribedIsListed(m: Machine, s: Subscriber)
    ensures Has(AfterSubscribe(m, s).list, s.connHandle)
  {
    var longer := m.list + [s];
    assert longer[|m.list|] == s;
    if Has(m.list, s.connHandle) {
      assert Has(Add(m, s).list, s.connHandle);
    }
  }

  /**
   A request of no type, or of a SUPL type, an emergency one rerouted or not, is listed by the
   AGNSS machine, and one of any other type by the internet machine; the other machine does not
   hear of it, and without a machine the modem is refused.
   */
  lemma RequestIsListed(m: Manager, h: int, agpsType: int, emergencyPdn: bool)
    ensures var n := AfterCall(m, RequestATL(h, agpsType, emergencyPdn));
            var internet := agpsType !in {TYPE_INVALID, TYPE_SUPL, TYPE_SUPL_ES};
            && (internet ==> n.agnss == m.agnss && (m.internet.Some? ==> Holds(n.internet, h)))
            && (!internet ==> n.internet == m.internet && (m.agnss.Some? ==> Holds(n.agnss, h)))
            && n.refused == m.refused + if (if internet then m.internet else m.agnss).None? then [h] else []
  {
    var s := Subscriber(h, false, false);
    if m.agnss.Some? { SubscribedIsListed(m.agnss.value, s); }
    if m.internet.Some? { SubscribedIsListed(m.internet.value, s); }
    hide AfterSubscribe, Has;
  }

  lemma ReleaseRemoves(m: Machine, h: int, g: int)
    requires Plain(m) && Has(m.list, h)
    ensures Has(Step(m, Release(h)).list, g) <==> Has(m.list, g) && g != h
  {
    hide Inv, Read;
    var s := Lookup(m.list, h);
    var left := Without(m.list, h);
    assert Step(m, Release(h)).list == left;
    forall i | 0 <= i < |left| ensures left[i] in m.list && left[i].connHandle != h {
      WithoutMember(m.list, h, left[i]);
    }
    if Has(left, g) {
      var i :| 0 <= i < |left| && left[i].connHandle == g;
      assert left[i] in m.list;
    }
    if Has(m.list, g) && g != h {
      var i :| 0 <= i < |m.list| && m.list[i].connHandle == g;
      WithoutMember(m.list, h, m.list[i]);
    }
  }

  /**
   A release takes the handle off one machine, AGNSS first: it is listed nowhere afterwards
   exactly if the machines did not both list it.  Other handles stay where they are.
   */
  lemma ReleaseLeavesIff(cs: seq<Call>, h: int, g: int)
    requires g != h
    ensures var m, n := Run(cs), AfterCall(Run(cs), ReleaseATL(h));
            && (!Holds(n.agnss, h) && !Holds(n.internet, h) <==> !(Holds(m.agnss, h) && Holds(m.internet, h)))
            && (Holds(n.agnss, g) <==> Holds(m.agnss, g)) && (Holds(n.internet, g) <==> Holds(m.internet, g))
  {
    var m := Run(cs);
    ReleasingIsUnreachable(cs);
    hide Run, Plain, Step, Has;
    if Holds(m.agnss, h) {
      ReleaseRemoves(m.agnss.value, h, h);
      ReleaseRemoves(m.agnss.value, h, g);
    } else if Holds(m.internet, h) {
      ReleaseRemoves(m.internet.value, h, h);
      ReleaseRemoves(m.internet.value, h, g);
    }
  }

  /** A machine exists exactly if some call asked for it, AGNSS only of a device that is capable. */
  lemma {:induction false} MachinesExistIff(cs: seq<Call>)
    ensures Run(cs).internet.Some? <==> exists i :: 0 <= i < |cs| && cs[i].Create? && cs[i].wwan
    ensures Run(cs).agnss.Some? <==>
              exists i :: 0 <= i < |cs| && cs[i].Create? && cs[i].suplAndEs && cs[i].agpsCapable
  {
    hide Step, Has;
    if cs != [] {
      var before := cs[..|cs| - 1];
      MachinesExistIff(before);
      assert forall i :: 0 <= i < |before| ==> before[i] == cs[i];
    }
  }

  /** What a trace shows of an event that the framework reported, or of a modem restart. */
  ghost predicate Heard(before: Option<Machine>, after: Option<Machine>, e: Entry) {
    before.Some? ==>
      after.Some? && |before.value.trace| < |after.value.trace| && before.value.trace <= after.value.trace
      && (e == ModemRestart ==> after.value.list == [] && after.value.trace[|after.value.trace| - 1] == e)
      && (e.Framework? ==> after.value.trace[|before.value.trace|] == e)
  }

  lemma {:induction false} NotifiedGrows(trace: seq<Entry>, event: AgpsEvent, kind: NotificationType,
                                         list: seq<Subscriber>)
    ensures trace <= Notified(trace, event, kind, list)
    decreases list
  {
    if list != [] {
      NotifiedGrows(trace + NoticeOf(event, list[0].connHandle), event, kind, list[1..]);
      NotifiedGrows(trace, event, kind, list[1..]);
    }
  }

  lemma {:induction false} ErasedGrows(trace: seq<Entry>, list: seq<Subscriber>)
    ensures trace <= Erased(trace, list)
    decreases list
  {
    if list != [] { ErasedGrows(trace + [Dropped(list[0].connHandle)], list[1..]); }
  }

  lemma FrameworkHeard(m: Machine, event: AgpsEvent)
    requires event == EventGranted || event == EventReleased || event == EventDenied
    ensures Heard(Some(m), Some(Step(m, FromFramework(event))), Framework(event))
  {
    var seen := m.trace + [Framework(event)];
    NotifiedGrows(seen, event, ForActive, m.list);
    NotifiedGrows(seen, event, ForAll, m.list);
    NotifiedGrows(seen, EventReleased, ForInactive, m.list);
    hide Notified, Remaining, AnyActive;
    assert seen <= Step(m, FromFramework(event)).trace;
  }

  lemma RestartHeard(m: Machine)
    ensures Heard(Some(m), Some(Step(m, Restart)), ModemRestart)
  {
    ErasedGrows(m.trace, m.list);
    hide Erased;
  }

  /**
   The framework's word reaches the machine of its type and only that one; a modem restart
   reaches both, and neither lists anybody afterwards.
   */
  lemma CallsAreHeard(m: Manager, event: AgpsEvent, agpsType: int)
    requires event == EventGranted || event == EventReleased || event == EventDenied
    ensures var n, restarted := AfterCall(m, ReportATL(event, agpsType)), AfterCall(m, ModemSSR);
            && (agpsType in {TYPE_INVALID, TYPE_SUPL, TYPE_SUPL_ES} ==>
                  n.internet == m.internet && Heard(m.agnss, n.agnss, Framework(event)))
            && (agpsType !in {TYPE_INVALID, TYPE_SUPL, TYPE_SUPL_ES} ==>
                  n.agnss == m.agnss && Heard(m.internet, n.internet, Framework(event)))
            && Heard(m.agnss, restarted.agnss, ModemRestart) && Heard(m.internet, restarted.internet, ModemRestart)
            && n.refused == restarted.refused == m.refused
  {
    if m.agnss.Some? { FrameworkHeard(m.agnss.value, event); RestartHeard(m.agnss.value); }
    if m.internet.Some? { FrameworkHeard(m.internet.value, event); RestartHeard(m.internet.value); }
    hide Step, Heard;
    assert Heard(None, None, ModemRestart) && Heard(None, None, Framework(event)) by { NobodyHears(event); }
  }

  lemma NobodyHears(event: AgpsEvent)
    ensures Heard(None, None, ModemRestart) && Heard(None, None, Framework(event))
  {
  }

  lemma StepGrows(m: Machine, x: Input)
    ensures m.trace <= Step(m, x).trace
  {
    match x
    case Request(s) => assert m.trace <= Add(m, s).trace;
    case Release(h) => hide Without, Inactivated, AnyActive, Has, Lookup;
    case FromFramework(event) =>
      if event == EventGranted || event == EventReleased || event == EventDenied { FrameworkHeard(m, event); }
      hide Notified, Remaining, AnyActive;
    case Restart => RestartHeard(m);
  }

  ghost predicate Kept(before: Option<Machine>, after: Option<Machine>) {
    before.Some? ==> after.Some? && before.value.trace <= after.value.trace
  }

  /** No call, creating again included, forgets a machine or anything that crossed its boundary. */
  lemma NothingForgotten(m: Manager, c: Call)
    ensures Kept(m.agnss, AfterCall(m, c).agnss) && Kept(m.internet, AfterCall(m, c).internet)
  {
    hide Step, Has;
    var x := match c
      case RequestATL(h, _, _) => Request(Subscriber(h, false, false))
      case ReleaseATL(h) => Release(h)
      case ReportATL(event, _) => FromFramework(event)
      case _ => Restart;
    if m.agnss.Some? { StepGrows(m.agnss.value, x); }
    if m.internet.Some? { StepGrows(m.internet.value, x); }
  }
}
