/**
 What the tracking multiplexer keeps over runs: the engine runs exactly while there is a
 time-based session, it is never slower than any of them, and whatever it is programmed with
 is the smallest interval of the sessions that remain.
 */
module TrackingRuns {
  import opened Ordered
  import opened Tracking
  import opened Wrappers

  datatype Message =
    | StartTracking(key: nat, options: Options, hasCallback: bool, known: bool)
    | UpdateTracking(key: nat, options: Options, known: bool)
    | StopTracking(key: nat)
    | EngineUp

  ghost function Step(a: Adapter, m: Message): Adapter {
    match m
    case StartTracking(key, o, hasCallback, known) => AfterStart(a, key, o, hasCallback, known)
    case UpdateTracking(key, o, known) => AfterUpdate(a, key, o, known)
    case StopTracking(key) => AfterStop(a, key)
    case EngineUp => AfterEngineUp(a)
  }

  /** Generated session ids are new. */
  ghost predicate Legal(a: Adapter, m: Message) {
    m.StartTracking? ==> m.key !in a.timeBased && m.key !in a.distanceBased
  }

  ghost predicate WellFormed(a: Adapter) {
    && (forall k :: k in a.timeBased ==>
          a.timeBased[k].size != 0 && a.timeBased[k].minInterval >= MIN_TRACKING_INTERVAL)
    && a.timeBased.Keys !! a.distanceBased.Keys
    && (!a.distanceSupported ==> a.distanceBased == map[])
  }

  /** The engine runs iff somebody tracks by time, and is fast enough for everybody. */
  ghost predicate Served(a: Adapter) {
    && (a.engine.Some? <==> a.timeBased != map[])
    && (a.engine.Some? ==> forall k :: k in a.timeBased ==> a.engine.value.minInterval <= a.timeBased[k].minInterval)
  }

  ghost predicate Inv(a: Adapter) {
    WellFormed(a) && Served(a)
  }

  ghost predicate IsMinInterval(x: nat, sessions: map<nat, Options>) {
    && (exists k :: k in sessions && sessions[k].minInterval == x)
    && (forall k :: k in sessions ==> x <= sessions[k].minInterval)
  }

  // ----- the loops find the minimum -----------------------------------------------

  lemma {:induction false} FindInIs(f: Found, sessions: map<nat, Options>, todo: set<nat>)
    requires todo <= sessions.Keys && (forall k :: k in todo ==> sessions[k].size != 0)
    ensures var r := FindIn(f, sessions, todo);
            && (forall k :: k in todo ==> r.options.minInterval <= sessions[k].minInterval)
            && (f.options.size != 0 ==> r.options.minInterval <= f.options.minInterval)
            && ((f.options.size != 0 && r.options == f.options)
                || (exists k :: k in todo && r.options == sessions[k])
                || (todo == {} && r == f))
    decreases |todo|
  {
    if todo != {} {
      var k := MinOf(todo);
      FindInIs(Consider(f, sessions[k]), sessions, todo - {k});
    }
  }

  lemma {:induction false} RestartInIs(r: Restart, sessions: map<nat, Options>, todo: set<nat>)
    requires todo <= sessions.Keys && (forall k :: k in todo ==> sessions[k].size != 0)
    ensures var q := RestartIn(r, sessions, todo);
            && (forall k :: k in todo ==> q.smallest.minInterval <= sessions[k].minInterval)
            && (r.smallest.size != 0 ==> q.smallest.minInterval <= r.smallest.minInterval)
            && ((r.smallest.size != 0 && q.smallest == r.smallest)
                || (exists k :: k in todo && q.smallest == sessions[k])
                || (todo == {} && q == r))
    decreases |todo|
  {
    if todo != {} {
      var k := MinOf(todo);
      RestartInIs(ConsiderRestart(r, sessions[k]), sessions, todo - {k});
    }
  }

  lemma OnlySession(sessions: map<nat, Options>, key: nat)
    requires key in sessions
    ensures |sessions| == 1 <==> sessions - {key} == map[]
    ensures sessions.Keys - {key} == {} <==> sessions - {key} == map[]
    ensures (sessions - {key}).Keys == sessions.Keys - {key}
  {
    assert |sessions| == |sessions.Keys|;
    assert sessions.Keys == (sessions.Keys - {key}) + {key};
    assert |sessions.Keys - {key}| == |sessions.Keys| - 1;
    assert (sessions - {key}).Keys == sessions.Keys - {key};
    if |sessions| == 1 {
      assert sessions.Keys - {key} == {};
      assert (sessions - {key}).Keys == {};
    }
    if sessions - {key} == map[] {
      assert (sessions - {key}).Keys == {};
    }
  }

  /** Joining a running engine sends, if anything, the smallest interval of the new set of sessions. */
  lemma CombinedIsMin(sessions: map<nat, Options>, key: nat, o: Options)
    requires sessions.Keys - {key} != {}
    requires forall k :: k in sessions && k != key ==> sessions[k].size != 0
    ensures var c, next := Combined(Others(sessions, key), o), sessions[key := o];
            && (c.StartFix? ==> IsMinInterval(c.options.minInterval, next))
            && (c.NoCommand? ==> exists k :: k in sessions && k != key && sessions[k].minInterval <= o.minInterval)
            && !c.StopFix?
  {
    FindInIs(NOTHING_FOUND, sessions, sessions.Keys - {key});
    var f, next := Others(sessions, key), sessions[key := o];
    var k :| k in sessions.Keys - {key} && f.options == sessions[k];
    assert next[k].minInterval == f.options.minInterval && next[key].minInterval == o.minInterval;
  }

  lemma StartIsMin(a: Adapter, key: nat, o: Options)
    requires WellFormed(a) && key !in a.timeBased
    ensures var c, next := StartCommand(a, o), a.timeBased[key := o];
            && (c.StartFix? ==> IsMinInterval(c.options.minInterval, next))
            && (c.NoCommand? ==> exists k :: k in a.timeBased && a.timeBased[k].minInterval <= o.minInterval)
            && !c.StopFix?
  {
    if a.timeBased == map[] {
      assert a.timeBased[key := o][key].minInterval == o.minInterval;
    } else {
      assert a.timeBased.Keys - {key} == a.timeBased.Keys;
      CombinedIsMin(a.timeBased, key, o);
    }
  }

  lemma UpdateIsMin(a: Adapter, key: nat, o: Options)
    requires WellFormed(a) && key in a.timeBased
    ensures var c, next := UpdateCommand(a, key, o), a.timeBased[key := o];
            && (c.StartFix? ==> IsMinInterval(c.options.minInterval, next))
            && (c.NoCommand? ==> exists k :: k in a.timeBased && a.timeBased[k].minInterval <= o.minInterval)
            && !c.StopFix?
  {
    OnlySession(a.timeBased, key);
    var s, next := a.timeBased[key], a.timeBased[key := o];
    if s.minInterval == o.minInterval && s.powerMode == o.powerMode {
    } else if |a.timeBased| == 1 {
      assert next[key].minInterval == o.minInterval;
      assert forall k :: k in next ==> k == key by {
        forall k | k in next ensures k == key {
          assert k !in a.timeBased.Keys - {key};
        }
      }
    } else {
      CombinedIsMin(a.timeBased, key, o);
    }
  }

  lemma StopIsMin(a: Adapter, key: nat)
    requires WellFormed(a) && key in a.timeBased
    ensures var c, next := StopCommand(a, key), a.timeBased - {key};
            && (c.StartFix? ==> IsMinInterval(c.options.minInterval, next))
            && (c.StopFix? <==> next == map[])
  {
    OnlySession(a.timeBased, key);
    if |a.timeBased| != 1 {
      FindInIs(NOTHING_FOUND, a.timeBased, a.timeBased.Keys - {key});
      var f, next := Others(a.timeBased, key), a.timeBased - {key};
      var k :| k in a.timeBased.Keys - {key} && f.options == a.timeBased[k];
      assert next[k] == a.timeBased[k];
    }
  }

  lemma EngineUpIsMin(a: Adapter)
    requires WellFormed(a)
    ensures var c := RestartCommand(a);
            && (c.StartFix? <==> a.timeBased != map[])
            && (c.StartFix? ==> IsMinInterval(c.options.minInterval, a.timeBased))
            && !c.StopFix?
  {
    if a.timeBased != map[] {
      RestartInIs(Restart(BLANK, BLANK), a.timeBased, a.timeBased.Keys);
      var r := RestartIn(Restart(BLANK, BLANK), a.timeBased, a.timeBased.Keys);
      assert exists k :: k in a.timeBased && r.smallest == a.timeBased[k];
    }
  }

  // ----- the step that can break the service --------------------------------------

  /**
   A time-based session is asked to track by distance, which is not supported: the code stops
   its share of the engine and then saves it as a time-based session again.
   */
  ghost predicate SwitchesToUnsupported(a: Adapter, m: Message) {
    && m.UpdateTracking? && m.known && m.options.size != 0
    && m.key in a.timeBased && m.options.minDistance > 0 && !a.distanceSupported
  }

  /** The guard under which a stop sends the engine what the other sessions need. */
  ghost predicate StopReprograms(a: Adapter, key: nat)
    requires key in a.timeBased
  {
    var f, s := Others(a.timeBased, key), a.timeBased[key];
    s.minInterval < f.options.minInterval || s.powerMode < f.powerMode
  }

  /** Some other session is at least as fast as the one that switches. */
  ghost predicate OtherAsFast(a: Adapter, m: Message)
    requires m.UpdateTracking?
  {
    exists k :: k in a.timeBased && k != m.key && a.timeBased[k].minInterval <= Clamped(m.options).minInterval
  }

  /**
   The switch does no harm when the session is not the only one, and what the engine goes on
   with is fast enough for it: what the others need if they are sent, else what it has now.
   */
  ghost predicate Harmless(a: Adapter, m: Message)
    requires SwitchesToUnsupported(a, m)
  {
    && |a.timeBased| != 1
    && if StopReprograms(a, m.key) then OtherAsFast(a, m)
       else a.engine.Some? && a.engine.value.minInterval <= Clamped(m.options).minInterval
  }

  /** What the engine is told in a step. */
  ghost function Sent(a: Adapter, m: Message): Command {
    match m
    case StartTracking(key, o, hasCallback, known) =>
      if (!known && o.minDistance > 0) || !hasCallback || o.size == 0
         || (o.minDistance > 0 && a.distanceSupported) then NoCommand
      else StartCommand(a, PowerFallback(Clamped(o)))
    case UpdateTracking(key, o, known) =>
      var p := Clamped(PowerFallback(o));
      if (!known && o.minDistance > 0) || o.size == 0 then NoCommand
      else if key in a.timeBased && o.minDistance > 0 then StopCommand(a, key)
      else if key in a.timeBased then UpdateCommand(a, key, p)
      else if key in a.distanceBased && o.minDistance == 0 then StartCommand(Erased(a, key), p)
      else NoCommand
    case StopTracking(key) => if key in a.timeBased then StopCommand(a, key) else NoCommand
    case EngineUp => RestartCommand(a)
  }

  lemma SentIsObeyed(a: Adapter, m: Message)
    requires WellFormed(a)
    ensures Step(a, m).engine == Obey(if m.EngineUp? then None else a.engine, Sent(a, m))
  {
  }

  lemma StepWellFormed(a: Adapter, m: Message)
    requires WellFormed(a) && Legal(a, m)
    ensures WellFormed(Step(a, m))
  {
    hide StartCommand, StopCommand, UpdateCommand, RestartCommand;
  }

  /** What a step sends is the smallest interval of the sessions it leaves, and a served adapter stays served. */
  ghost predicate Exactly(a: Adapter, m: Message) {
    && (Sent(a, m).StartFix? ==> IsMinInterval(Sent(a, m).options.minInterval, Step(a, m).timeBased))
    && (Served(a) ==> Served(Step(a, m)))
  }

  lemma StartServes(a: Adapter, m: Message)
    requires WellFormed(a) && Legal(a, m) && m.StartTracking?
    ensures Exactly(a, m)
  {
    StartIsMin(a, m.key, PowerFallback(Clamped(m.options)));
    hide StartCommand;
  }

  lemma StopServes(a: Adapter, m: Message)
    requires WellFormed(a) && m.StopTracking?
    ensures Exactly(a, m)
  {
    if m.key in a.timeBased { StopIsMin(a, m.key); }
    hide StopCommand;
  }

  lemma UpdateTimeServes(a: Adapter, m: Message)
    requires WellFormed(a) && m.UpdateTracking? && !SwitchesToUnsupported(a, m) && m.key in a.timeBased
    ensures Exactly(a, m)
  {
    StopIsMin(a, m.key);
    UpdateIsMin(a, m.key, Clamped(PowerFallback(m.options)));
    hide StartCommand, StopCommand, UpdateCommand;
  }

  lemma UpdateServes(a: Adapter, m: Message)
    requires WellFormed(a) && m.UpdateTracking? && !SwitchesToUnsupported(a, m)
    ensures Exactly(a, m)
  {
    if m.key in a.timeBased {
      UpdateTimeServes(a, m);
    } else {
      StartIsMin(Erased(a, m.key), m.key, Clamped(PowerFallback(m.options)));
      hide StartCommand, StopCommand, UpdateCommand;
    }
  }

  lemma EngineUpServes(a: Adapter)
    requires WellFormed(a)
    ensures Exactly(a, EngineUp)
  {
    EngineUpIsMin(a);
    hide RestartCommand;
  }

  lemma StepServes(a: Adapter, m: Message)
    requires WellFormed(a) && Legal(a, m) && !SwitchesToUnsupported(a, m)
    ensures Exactly(a, m)
  {
    hide Exactly, WellFormed;
    match m
    case StartTracking(_, _, _, _) => StartServes(a, m);
    case UpdateTracking(_, _, _) => UpdateServes(a, m);
    case StopTracking(_) => StopServes(a, m);
    case EngineUp => EngineUpServes(a);
  }

  /** After an unsupported switch the session is still there, with its new interval, beside the others. */
  lemma SwitchedSessions(a: Adapter, m: Message)
    requires SwitchesToUnsupported(a, m)
    ensures Step(a, m).engine == Obey(a.engine, StopCommand(a, m.key))
    ensures Sent(a, m) == StopCommand(a, m.key)
    ensures Step(a, m).timeBased == a.timeBased[m.key := Clamped(PowerFallback(m.options))]
    ensures Clamped(PowerFallback(m.options)).minInterval == Clamped(m.options).minInterval
  {
    hide StopCommand;
    assert a.timeBased - {m.key} + map[m.key := Clamped(PowerFallback(m.options))]
           == a.timeBased[m.key := Clamped(PowerFallback(m.options))];
  }

  /** What an unsupported switch sends is the smallest interval exactly if another session is as fast. */
  lemma SwitchSendsIff(a: Adapter, m: Message)
    requires WellFormed(a) && SwitchesToUnsupported(a, m) && Sent(a, m).StartFix?
    ensures IsMinInterval(Sent(a, m).options.minInterval, Step(a, m).timeBased) <==> OtherAsFast(a, m)
    ensures Served(Step(a, m)) <==> OtherAsFast(a, m)
  {
    SwitchedSessions(a, m);
    StopIsMin(a, m.key);
    hide Sent, Step, StopCommand;
    var x, next := Sent(a, m).options.minInterval, Step(a, m).timeBased;
    var least :| least in a.timeBased - {m.key} && (a.timeBased - {m.key})[least].minInterval == x;
    assert least in next && next[least].minInterval == x && least != m.key && a.timeBased[least].minInterval == x;
    assert m.key in next && next[m.key].minInterval == Clamped(m.options).minInterval;
    forall k | k in a.timeBased && k != m.key ensures x <= a.timeBased[k].minInterval && next[k] == a.timeBased[k] {
      assert k in a.timeBased - {m.key};
    }
  }

  /** An unsupported switch keeps the service exactly if it does no harm. */
  lemma SwitchServesIff(a: Adapter, m: Message)
    requires Inv(a) && SwitchesToUnsupported(a, m)
    ensures Served(Step(a, m)) <==> Harmless(a, m)
  {
    SwitchedSessions(a, m);
    if |a.timeBased| != 1 && StopReprograms(a, m.key) {
      assert Sent(a, m).StartFix?;
      SwitchSendsIff(a, m);
    } else {
      var next := Step(a, m);
      assert next.engine == if |a.timeBased| == 1 then None else a.engine;
      hide Step, StopCommand, StopReprograms;
      assert m.key in next.timeBased;
    }
  }

  /**
   A step keeps the service exactly when it is not a switch to unsupported distance tracking, or
   is one that does no harm.
   */
  lemma StepServesIff(a: Adapter, m: Message)
    requires Inv(a) && Legal(a, m)
    ensures Inv(Step(a, m)) <==> (SwitchesToUnsupported(a, m) ==> Harmless(a, m))
  {
    hide Step, Sent, Served, WellFormed, Harmless, SwitchesToUnsupported;
    StepWellFormed(a, m);
    if SwitchesToUnsupported(a, m) {
      SwitchServesIff(a, m);
    } else {
      StepServes(a, m);
    }
  }

  // ----- power modes --------------------------------------------------------------

  ghost function Powers(sessions: map<nat, Options>): map<nat, nat> {
    map k | k in sessions :: sessions[k].powerMode
  }

  /** The power modes go through a loop that takes the invalid mode, zero, for none yet. */
  lemma {:induction false} FindInPower(f: Found, sessions: map<nat, Options>, todo: set<nat>, powers: map<nat, nat>)
    requires todo <= sessions.Keys && todo <= powers.Keys
    requires forall k :: k in todo ==> powers[k] == sessions[k].powerMode
    ensures FindIn(f, sessions, todo).powerMode == SentinelMin(f.powerMode, InOrder(powers, todo))
    decreases |todo|
  {
    if todo != {} {
      FindInPower(Consider(f, sessions[MinOf(todo)]), sessions, todo - {MinOf(todo)}, powers);
    }
  }

  /**
   A stop that reprograms sends the strongest power mode of the sessions left exactly if it is
   not so that one of them has an invalid mode and the one with the greatest key has not.
   */
  lemma StopSendsStrongestPowerIff(a: Adapter, key: nat)
    requires WellFormed(a) && key in a.timeBased && StopCommand(a, key).StartFix?
    ensures var powers := Powers(a.timeBased - {key});
            IsLeast(StopCommand(a, key).options.powerMode, powers) <==> !ForgetsZero(powers)
  {
    var left := a.timeBased - {key};
    var powers := Powers(left);
    OnlySession(a.timeBased, key);
    assert powers.Keys == left.Keys == a.timeBased.Keys - {key};
    FindInPower(NOTHING_FOUND, a.timeBased, a.timeBased.Keys - {key}, powers);
    assert Others(a.timeBased, key).powerMode == LoopMin(powers);
    assert powers != map[] by { assert powers.Keys != {}; }
    LoopMinIff(powers);
    hide ForgetsZero, IsLeast, LoopMin, FindIn;
  }

  // ----- runs ---------------------------------------------------------------------

  ghost function Run(supported: bool, ms: seq<Message>): Adapter {
    if ms == [] then Adapter(map[], map[], None, supported)
    else Step(Run(supported, ms[..|ms| - 1]), ms[|ms| - 1])
  }

  ghost predicate LegalRun(supported: bool, ms: seq<Message>) {
    forall i :: 0 <= i < |ms| ==> Legal(Run(supported, ms[..i]), ms[i])
  }

  /** Every switch to unsupported distance tracking is one that does no harm. */
  ghost predicate HarmlessSwitches(supported: bool, ms: seq<Message>) {
    forall i :: 0 <= i < |ms| && SwitchesToUnsupported(Run(supported, ms[..i]), ms[i]) ==>
      Harmless(Run(supported, ms[..i]), ms[i])
  }

  ghost predicate AlwaysServed(supported: bool, ms: seq<Message>) {
    forall k :: 0 <= k <= |ms| ==> Inv(Run(supported, ms[..k]))
  }

  lemma RunPrefix(supported: bool, ms: seq<Message>, k: nat)
    requires k < |ms|
    ensures Run(supported, ms[..k + 1]) == Step(Run(supported, ms[..k]), ms[k])
  {
    assert ms[..k + 1][..k] == ms[..k];
  }

  lemma {:induction false} ServedUpTo(supported: bool, ms: seq<Message>, k: nat)
    requires k <= |ms| && LegalRun(supported, ms) && HarmlessSwitches(supported, ms)
    ensures Inv(Run(supported, ms[..k]))
  {
    if k > 0 {
      ServedUpTo(supported, ms, k - 1);
      RunPrefix(supported, ms, k - 1);
      StepServesIff(Run(supported, ms[..k - 1]), ms[k - 1]);
    }
  }

  /**
   Over whole runs: in every state the engine runs exactly while somebody tracks by time and is
   never slower than anybody asks, if and only if no harmful switch ever happens.
   */
  lemma ServedRunsIff(supported: bool, ms: seq<Message>)
    requires LegalRun(supported, ms)
    ensures AlwaysServed(supported, ms) <==> HarmlessSwitches(supported, ms)
  {
    hide Run, Step;
    if HarmlessSwitches(supported, ms) {
      forall k | 0 <= k <= |ms| ensures Inv(Run(supported, ms[..k])) {
        ServedUpTo(supported, ms, k);
      }
    }
    if AlwaysServed(supported, ms) {
      forall i | 0 <= i < |ms| && SwitchesToUnsupported(Run(supported, ms[..i]), ms[i])
        ensures Harmless(Run(supported, ms[..i]), ms[i])
      {
        assert Inv(Run(supported, ms[..i])) && Inv(Run(supported, ms[..i + 1]));
        RunPrefix(supported, ms, i);
        StepServesIff(Run(supported, ms[..i]), ms[i]);
      }
    }
  }

  lemma {:induction false} RunWellFormed(supported: bool, ms: seq<Message>, k: nat)
    requires k <= |ms| && LegalRun(supported, ms)
    ensures WellFormed(Run(supported, ms[..k]))
  {
    if k > 0 {
      RunWellFormed(supported, ms, k - 1);
      RunPrefix(supported, ms, k - 1);
      hide Run, Step;
      StepWellFormed(Run(supported, ms[..k - 1]), ms[k - 1]);
    }
  }

  /**
   After any run at all, whatever the engine is programmed with next is the smallest interval of
   the sessions that remain, and serves them all; with the single exception of an unsupported
   switch, where it is so exactly if another session is as fast as the one that switches.
   */
  lemma {:induction false} ReprogrammingIsExact(supported: bool, ms: seq<Message>, m: Message)
    requires LegalRun(supported, ms) && Legal(Run(supported, ms), m)
    requires Sent(Run(supported, ms), m).StartFix?
    ensures var a := Run(supported, ms);
            var next, sent := Step(a, m), Sent(a, m).options;
            && next.engine == Some(sent)
            && (IsMinInterval(sent.minInterval, next.timeBased)
                <==> (SwitchesToUnsupported(a, m) ==> OtherAsFast(a, m)))
            && (Served(next) <==> IsMinInterval(sent.minInterval, next.timeBased))
  {
    RunWellFormed(supported, ms, |ms|);
    assert ms[..|ms|] == ms;
    var a := Run(supported, ms);
    hide Run, WellFormed;
    SentIsObeyed(a, m);
    if SwitchesToUnsupported(a, m) {
      SwitchSendsIff(a, m);
    } else {
      StepServes(a, m);
      hide Step, Sent, OtherAsFast, SwitchesToUnsupported;
    }
  }

  lemma {:induction false} SupportStays(supported: bool, ms: seq<Message>)
    ensures Run(supported, ms).distanceSupported == supported
  {
    if ms != [] { SupportStays(supported, ms[..|ms| - 1]); }
  }

  /** Where distance-based tracking is supported, the service never fails. */
  lemma SupportedIsAlwaysServed(ms: seq<Message>)
    requires LegalRun(true, ms)
    ensures AlwaysServed(true, ms)
  {
    forall i | 0 <= i < |ms| ensures !SwitchesToUnsupported(Run(true, ms[..i]), ms[i]) {
      SupportStays(true, ms[..i]);
    }
    ServedRunsIff(true, ms);
  }

  /** The only tracking session is switched: it stays listed by time, and the engine is off. */
  lemma SwitchCanStopTheEngine() returns (ms: seq<Message>)
    ensures LegalRun(false, ms)
    ensures Run(false, ms).timeBased != map[] && Run(false, ms).engine == None
  {
    var o := Options(28, 1000, 0, 0, 1, 0);
    var start := StartTracking(1, o, true, true);
    var switch := UpdateTracking(1, o.(minDistance := 50), true);
    ms := [start, switch];
    assert ms[..0] == [] && ms[..1] == [start] && ms[..1][..0] == [] && ms[..2] == ms;
    RunPrefix(false, ms, 0);
    RunPrefix(false, ms, 1);
    var a := Run(false, ms[..1]);
    assert a.timeBased == map[1 := o];
    OnlySession(a.timeBased, 1);
  }
}
