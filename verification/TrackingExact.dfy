/**
 What exactly the engine is programmed with.  It runs at the smallest interval of the sessions,
 and not merely fast enough for all of them, until the one fastest session slows down without
 the engine being told; and its power mode is the strongest one under conditions of its own.
 */
module TrackingExact {
  import opened Ordered
  import opened Tracking
  import opened TrackingRuns
  import opened Wrappers

  // ----- the smallest interval ----------------------------------------------------

  /** The engine runs exactly while somebody tracks by time, at the smallest interval asked for. */
  ghost predicate Minimal(a: Adapter) {
    && (a.engine.Some? <==> a.timeBased != map[])
    && (a.engine.Some? ==> IsMinInterval(a.engine.value.minInterval, a.timeBased))
  }

  // ----- what is saved ------------------------------------------------------------

  /** A request as it is saved: at least 100 ms, and M2 where M4 falls back for its time between measurements. */
  ghost predicate IsAsked(p: Options, o: Options, falls: bool) {
    && p.minInterval == (if o.minInterval < 100 then 100 else o.minInterval)
    && p.powerMode == (if falls && o.powerMode == 4 && o.tbm > 480000 then 2 else o.powerMode)
    && p.size == o.size && p.minDistance == o.minDistance && p.mode == o.mode && p.tbm == o.tbm
  }

  /** A start or an update that is neither put off nor refused. */
  ghost predicate Handled(a: Adapter, m: Message) {
    && (m.StartTracking? || m.UpdateTracking?) && m.options.size != 0 && (m.known || m.options.minDistance == 0)
    && (m.StartTracking? ==> m.hasCallback)
    && (m.UpdateTracking? ==> m.key in a.timeBased || m.key in a.distanceBased)
  }

  function Sessions(a: Adapter, byDistance: bool): map<nat, Options> {
    if byDistance then a.distanceBased else a.timeBased
  }

  /**
   After any run the session is then listed once, by distance exactly if it asks for a distance and the engine
   supports that, with the options it asked for; a start by distance keeps even its power mode.
   Every other session is as it was, and so is everything when the request is not handled.
   */
  lemma {:induction false} SavedAsAsked(supported: bool, ms: seq<Message>, m: Message, k: nat, byDistance: bool)
    requires LegalRun(supported, ms) && Legal(Run(supported, ms), m) && (m.StartTracking? || m.UpdateTracking?)
    ensures var a := Run(supported, ms);
            var next, own := Step(a, m), m.options.minDistance > 0 && supported;
            var sessions := Sessions(next, byDistance);
            && (Handled(a, m) && k == m.key ==>
                  && (k in sessions <==> byDistance == own)
                  && (byDistance == own ==> IsAsked(sessions[k], m.options, m.UpdateTracking? || !own)))
            && (k != m.key || !Handled(a, m) ==>
                  && (k in sessions <==> k in Sessions(a, byDistance))
                  && (k in sessions ==> sessions[k] == Sessions(a, byDistance)[k]))
  {
    RunWellFormed(supported, ms, |ms|);
    SupportStays(supported, ms);
    assert ms[..|ms|] == ms;
    hide Run, StartCommand, StopCommand, UpdateCommand;
  }

  /** And a stopped session is listed nowhere, while every other one is as it was. */
  lemma {:induction false} StoppedIsGone(supported: bool, ms: seq<Message>, key: nat, k: nat, byDistance: bool)
    requires LegalRun(supported, ms)
    ensures var a, next := Run(supported, ms), Step(Run(supported, ms), StopTracking(key));
            && (k in Sessions(next, byDistance) <==> k in Sessions(a, byDistance) && k != key)
            && (k in Sessions(next, byDistance) ==> Sessions(next, byDistance)[k] == Sessions(a, byDistance)[k])
  {
    RunWellFormed(supported, ms, |ms|);
    assert ms[..|ms|] == ms;
    hide Run, StopCommand;
  }

  // ----- the only session ---------------------------------------------------------

  /**
   After any run, an update of the only session reaches the engine in full when it changes the
   session's interval or power mode, and leaves the engine alone when it does not.
   */
  lemma {:induction false} LoneUpdate(supported: bool, ms: seq<Message>, m: Message)
    requires LegalRun(supported, ms) && m.UpdateTracking? && m.options.size != 0 && m.options.minDistance == 0
    requires Run(supported, ms).timeBased.Keys == {m.key}
    ensures var a, next := Run(supported, ms), Step(Run(supported, ms), m);
            && next.timeBased.Keys == {m.key} && IsAsked(next.timeBased[m.key], m.options, true)
            && var s, p := a.timeBased[m.key], next.timeBased[m.key];
               next.engine == if p.minInterval != s.minInterval || p.powerMode != s.powerMode then Some(p) else a.engine
  {
    RunWellFormed(supported, ms, |ms|);
    assert ms[..|ms|] == ms;
    var a, p := Run(supported, ms), Clamped(PowerFallback(m.options));
    hide Run;
    assert |a.timeBased| == |a.timeBased.Keys| == 1;
    assert m.key !in a.distanceBased && Step(a, m).timeBased == a.timeBased[m.key := p];
    assert a.timeBased[m.key := p].Keys == {m.key};
  }

  /** The session was faster than every other. */
  ghost predicate Fastest(sessions: map<nat, Options>, key: nat)
    requires key in sessions
  {
    forall k :: k in sessions && k != key ==> sessions[key].minInterval < sessions[k].minInterval
  }

  /**
   The one fastest session of several slows down behind another one, and asks for no stronger
   power mode than the loop has found among the others: the engine is not told.
   */
  ghost predicate SlowsUnnoticed(a: Adapter, m: Message) {
    && m.UpdateTracking? && m.options.size != 0 && m.options.minDistance == 0
    && m.key in a.timeBased && Fastest(a.timeBased, m.key) && OtherAsFast(a, m)
    && PowerFallback(m.options).powerMode >= LoopMin(Powers(a.timeBased - {m.key}))
  }

  /** The steps that leave the engine off the minimum. */
  ghost predicate Lags(a: Adapter, m: Message) {
    SlowsUnnoticed(a, m) || (SwitchesToUnsupported(a, m) && !OtherAsFast(a, m))
  }

  lemma OthersIs(sessions: map<nat, Options>, key: nat)
    requires key in sessions && sessions.Keys - {key} != {}
    requires forall k :: k in sessions ==> sessions[k].size != 0
    ensures var f := Others(sessions, key);
            && (exists k :: k in sessions && k != key && f.options == sessions[k])
            && (forall k :: k in sessions && k != key ==> f.options.minInterval <= sessions[k].minInterval)
            && f.powerMode == LoopMin(Powers(sessions - {key}))
  {
    FindInIs(NOTHING_FOUND, sessions, sessions.Keys - {key});
    var powers := Powers(sessions - {key});
    assert powers.Keys == sessions.Keys - {key};
    FindInPower(NOTHING_FOUND, sessions, sessions.Keys - {key}, powers);
    hide FindIn, LoopMin;
    var f := Others(sessions, key);
    var k :| k in sessions.Keys - {key} && f.options == sessions[k];
  }

  /** When an update of one of several sessions is not passed on. */
  lemma UpdateSilentIff(a: Adapter, key: nat, o: Options)
    requires WellFormed(a) && key in a.timeBased && a.timeBased.Keys != {key}
    ensures var s := a.timeBased[key];
            UpdateCommand(a, key, o).NoCommand? <==>
              || (s.minInterval == o.minInterval && s.powerMode == o.powerMode)
              || ((exists k :: k in a.timeBased && k != key && a.timeBased[k].minInterval <= o.minInterval)
                  && o.powerMode >= LoopMin(Powers(a.timeBased - {key})))
  {
    OnlySession(a.timeBased, key);
    assert a.timeBased.Keys - {key} != {};
    OthersIs(a.timeBased, key);
    hide Others, LoopMin, Powers;
  }

  lemma NotAlone(a: Adapter, key: nat)
    requires key in a.timeBased
    ensures |a.timeBased| == 1 <==> a.timeBased.Keys == {key}
  {
    OnlySession(a.timeBased, key);
    if a.timeBased.Keys == {key} { assert a.timeBased.Keys - {key} == {}; }
    if a.timeBased.Keys - {key} == {} { assert a.timeBased.Keys == {key}; }
  }

  lemma UpdateMinimalIff(a: Adapter, m: Message)
    requires WellFormed(a) && Minimal(a)
    requires m.UpdateTracking? && m.options.size != 0 && m.options.minDistance == 0 && m.key in a.timeBased
    ensures Minimal(Step(a, m)) <==> !SlowsUnnoticed(a, m)
  {
    var p := Clamped(PowerFallback(m.options));
    var next := Step(a, m);
    UpdateIsMin(a, m.key, p);
    assert next.timeBased == a.timeBased[m.key := p] && next.engine == Obey(a.engine, UpdateCommand(a, m.key, p));
    NotAlone(a, m.key);
    if a.timeBased.Keys != {m.key} { UpdateSilentIff(a, m.key, p); }
    hide Step, WellFormed, UpdateCommand, LoopMin;
    UpdateKeepsMin(a.timeBased, m.key, p, a.engine.value.minInterval);
  }

  /** An engine left at the old minimum is at the new one unless the fastest session slowed down. */
  lemma UpdateKeepsMin(sessions: map<nat, Options>, key: nat, p: Options, x: nat)
    requires key in sessions && IsMinInterval(x, sessions)
    ensures IsMinInterval(x, sessions[key := p]) <==>
              || p.minInterval == x
              || (x <= p.minInterval && !Fastest(sessions, key))
  {
    var next := sessions[key := p];
    if x <= p.minInterval && !Fastest(sessions, key) {
      var k :| k in sessions && k != key && sessions[k].minInterval <= sessions[key].minInterval;
      var j :| j in sessions && sessions[j].minInterval == x;
      if j == key { assert next[k].minInterval == x; } else { assert next[j].minInterval == x; }
    }
    if p.minInterval == x { assert next[key].minInterval == x; }
    if IsMinInterval(x, next) {
      var j :| j in next && next[j].minInterval == x;
      assert x <= next[key].minInterval;
    }
  }

  lemma SwitchMinimalIff(a: Adapter, m: Message)
    requires WellFormed(a) && Minimal(a) && SwitchesToUnsupported(a, m)
    ensures Minimal(Step(a, m)) <==> OtherAsFast(a, m)
  {
    SwitchedSessions(a, m);
    NotAlone(a, m.key);
    var next, p := Step(a, m), Clamped(PowerFallback(m.options));
    if |a.timeBased| == 1 {
      assert m.key in next.timeBased && next.engine == None;
    } else if StopReprograms(a, m.key) {
      assert Sent(a, m).StartFix?;
      SwitchSendsIff(a, m);
    } else {
      var x := a.engine.value.minInterval;
      OnlySession(a.timeBased, m.key);
      OthersIs(a.timeBased, m.key);
      assert next.engine == a.engine && next.timeBased == a.timeBased[m.key := p];
      hide Step, Sent, StopCommand, Others, WellFormed, LoopMin;
      UpdateKeepsMin(a.timeBased, m.key, p, x);
      assert !Fastest(a.timeBased, m.key);
      AsFastAsMin(a.timeBased, m.key, x);
    }
  }

  lemma AsFastAsMin(sessions: map<nat, Options>, key: nat, x: nat)
    requires key in sessions && IsMinInterval(x, sessions) && !Fastest(sessions, key)
    ensures exists k :: k in sessions && k != key && sessions[k].minInterval == x
    ensures IsMinInterval(x, sessions - {key})
  {
    var k :| k in sessions && k != key && sessions[k].minInterval <= sessions[key].minInterval;
    var j :| j in sessions && sessions[j].minInterval == x;
    var i := if j == key then k else j;
    assert i in sessions && i != key && sessions[i].minInterval == x;
    assert i in sessions - {key} && (sessions - {key})[i].minInterval == x;
  }

  lemma JoinKeepsMin(sessions: map<nat, Options>, key: nat, p: Options, x: nat)
    requires key !in sessions && IsMinInterval(x, sessions)
    requires exists k :: k in sessions && sessions[k].minInterval <= p.minInterval
    ensures IsMinInterval(x, sessions[key := p])
  {
    var j :| j in sessions && sessions[j].minInterval == x;
    assert sessions[key := p][j].minInterval == x;
  }

  lemma StartMinimal(a: Adapter, key: nat, p: Options)
    requires WellFormed(a) && Minimal(a) && key !in a.timeBased
    ensures Minimal(a.(engine := Obey(a.engine, StartCommand(a, p)), timeBased := a.timeBased[key := p]))
  {
    StartIsMin(a, key, p);
    if a.timeBased != map[] && StartCommand(a, p).NoCommand? {
      hide StartCommand, WellFormed;
      JoinKeepsMin(a.timeBased, key, p, a.engine.value.minInterval);
    }
    assert key in a.timeBased[key := p];
  }

  lemma StopMinimal(a: Adapter, key: nat)
    requires WellFormed(a) && Minimal(a) && key in a.timeBased
    ensures Minimal(a.(engine := Obey(a.engine, StopCommand(a, key)), timeBased := a.timeBased - {key}))
  {
    StopIsMin(a, key);
    OnlySession(a.timeBased, key);
    if StopCommand(a, key).NoCommand? {
      OthersIs(a.timeBased, key);
      assert !Fastest(a.timeBased, key);
      hide StopCommand, WellFormed, Others, LoopMin;
      AsFastAsMin(a.timeBased, key, a.engine.value.minInterval);
    }
  }

  lemma OtherUpdateMinimal(a: Adapter, m: Message)
    requires WellFormed(a) && Minimal(a) && m.UpdateTracking? && !SwitchesToUnsupported(a, m)
    requires !(m.options.size != 0 && m.options.minDistance == 0 && m.key in a.timeBased)
    ensures Minimal(Step(a, m))
  {
    var p := Clamped(PowerFallback(m.options));
    if m.key in a.timeBased {
      StopMinimal(a, m.key);
      hide StopCommand;
      assert a.distanceSupported || Step(a, m) == a;
    } else if m.key in a.distanceBased && m.options.minDistance == 0 {
      StartMinimal(Erased(a, m.key), m.key, p);
      hide StartCommand;
    } else {
      assert Step(a, m).timeBased == a.timeBased && Step(a, m).engine == a.engine;
    }
  }

  lemma OtherMinimal(a: Adapter, m: Message)
    requires WellFormed(a) && Legal(a, m) && Minimal(a) && !m.UpdateTracking?
    ensures Minimal(Step(a, m))
  {
    match m
    case StartTracking(key, o, hasCallback, known) =>
      StartMinimal(a, key, PowerFallback(Clamped(o)));
      hide StartCommand;
    case StopTracking(key) =>
      if key in a.timeBased { StopMinimal(a, key); }
      hide StopCommand;
    case EngineUp => EngineUpIsMin(a);
  }

  /** Every step leaves the engine at the minimum, but for exactly those that lag. */
  lemma StepMinimalIff(a: Adapter, m: Message)
    requires WellFormed(a) && Legal(a, m) && Minimal(a)
    ensures Minimal(Step(a, m)) <==> !Lags(a, m)
  {
    hide Minimal, Step, WellFormed, OtherAsFast, Fastest, LoopMin;
    if SwitchesToUnsupported(a, m) {
      SwitchMinimalIff(a, m);
    } else if !m.UpdateTracking? {
      OtherMinimal(a, m);
    } else if m.options.size != 0 && m.options.minDistance == 0 && m.key in a.timeBased {
      UpdateMinimalIff(a, m);
    } else {
      OtherUpdateMinimal(a, m);
    }
  }

  // ----- runs ---------------------------------------------------------------------

  ghost predicate NeverLags(supported: bool, ms: seq<Message>) {
    forall i :: 0 <= i < |ms| ==> !Lags(Run(supported, ms[..i]), ms[i])
  }

  ghost predicate AlwaysMinimal(supported: bool, ms: seq<Message>) {
    forall k :: 0 <= k <= |ms| ==> Minimal(Run(supported, ms[..k]))
  }

  lemma {:induction false} MinimalUpTo(supported: bool, ms: seq<Message>, k: nat)
    requires k <= |ms| && LegalRun(supported, ms) && NeverLags(supported, ms)
    ensures Minimal(Run(supported, ms[..k]))
  {
    if k > 0 {
      MinimalUpTo(supported, ms, k - 1);
      RunWellFormed(supported, ms, k - 1);
      RunPrefix(supported, ms, k - 1);
      hide Step, Minimal, WellFormed, Lags, Run;
      assert !Lags(Run(supported, ms[..k - 1]), ms[k - 1]);
      StepMinimalIff(Run(supported, ms[..k - 1]), ms[k - 1]);
    }
  }

  /**
   Over whole runs: in every state the engine runs exactly while somebody tracks by time, and at
   the smallest interval asked for, if and only if no step ever lags.
   */
  lemma {:induction false} MinimalRunsIff(supported: bool, ms: seq<Message>)
    requires LegalRun(supported, ms)
    ensures AlwaysMinimal(supported, ms) <==> NeverLags(supported, ms)
  {
    hide Run, Step, Minimal, WellFormed, Lags;
    if NeverLags(supported, ms) {
      forall k | 0 <= k <= |ms| ensures Minimal(Run(supported, ms[..k])) {
        MinimalUpTo(supported, ms, k);
      }
    }
    if AlwaysMinimal(supported, ms) {
      forall i | 0 <= i < |ms| ensures !Lags(Run(supported, ms[..i]), ms[i]) {
        assert Minimal(Run(supported, ms[..i])) && Minimal(Run(supported, ms[..i + 1]));
        RunWellFormed(supported, ms, i);
        RunPrefix(supported, ms, i);
        StepMinimalIff(Run(supported, ms[..i]), ms[i]);
      }
    }
  }

  lemma RunNext(supported: bool, ms: seq<Message>, m: Message)
    requires LegalRun(supported, ms) && Legal(Run(supported, ms), m)
    ensures LegalRun(supported, ms + [m]) && Run(supported, ms + [m]) == Step(Run(supported, ms), m)
  {
    hide Run, Legal;
    var more := ms + [m];
    assert more[..|ms|] == ms;
    RunPrefix(supported, more, |ms|);
    assert more[..|more|] == more;
    forall i | 0 <= i < |more| ensures Legal(Run(supported, more[..i]), more[i]) {
      if i < |ms| { assert more[..i] == ms[..i]; }
    }
  }

  const QUICK := Options(28, 1000, 0, 0, 1, 0)
  const USUAL := Options(28, 5000, 0, 0, 1, 0)
  const SLOW := Options(28, 60000, 0, 0, 1, 0)

  lemma QuickStarts(supported: bool)
    ensures Run(supported, []) == Adapter(map[], map[], None, supported)
    ensures Step(Run(supported, []), StartTracking(1, QUICK, true, true))
            == Adapter(map[1 := QUICK], map[], Some(QUICK), supported)
  {
  }

  lemma UsualJoins(a: Adapter)
    requires a.timeBased == map[1 := QUICK] && a.distanceBased == map[]
    ensures Legal(a, StartTracking(2, USUAL, true, true))
    ensures Step(a, StartTracking(2, USUAL, true, true)) == a.(timeBased := map[1 := QUICK, 2 := USUAL])
  {
    assert MinOf({1}) == 1 && {1} - {1} == {} && a.timeBased.Keys == {1};
    assert FindIn(NOTHING_FOUND, a.timeBased, {1}) == Consider(NOTHING_FOUND, QUICK);
  }

  lemma QuickSlows(a: Adapter)
    requires a.timeBased == map[1 := QUICK, 2 := USUAL] && a.distanceBased == map[]
    ensures Step(a, UpdateTracking(1, SLOW, true)) == a.(timeBased := map[1 := SLOW, 2 := USUAL])
  {
    assert a.timeBased.Keys == {1, 2};
    assert |a.timeBased| == |a.timeBased.Keys| == 2;
    assert a.timeBased.Keys - {1} == {2} && MinOf({2}) == 2 && {2} - {2} == {};
    assert FindIn(NOTHING_FOUND, a.timeBased, {2}) == Consider(NOTHING_FOUND, USUAL);
  }

  /** Two sessions, at 1000 and 5000 ms: the first one slows down to 60000, and the engine stays at 1000. */
  lemma SlowdownCanLag(supported: bool) returns (ms: seq<Message>)
    ensures LegalRun(supported, ms)
    ensures var a := Run(supported, ms);
            && a.engine.Some? && a.engine.value.minInterval == 1000
            && a.timeBased == map[1 := SLOW, 2 := USUAL]
  {
    var start, join := StartTracking(1, QUICK, true, true), StartTracking(2, USUAL, true, true);
    var update := UpdateTracking(1, SLOW, true);
    assert LegalRun(supported, []);
    assert Legal(Run(supported, []), start);
    QuickStarts(supported);
    hide Run, LegalRun, Step;
    RunNext(supported, [], start);
    UsualJoins(Run(supported, [] + [start]));
    RunNext(supported, [] + [start], join);
    QuickSlows(Run(supported, [] + [start] + [join]));
    RunNext(supported, [] + [start] + [join], update);
    ms := [] + [start] + [join] + [update];
  }

  // ----- the power mode -----------------------------------------------------------

  /** The options of the session that no other one undercuts, and none before it equals. */
  ghost predicate FastestOf(s: Options, sessions: map<nat, Options>) {
    exists k :: k in sessions && s == sessions[k] && FirstFastest(k, sessions)
  }

  ghost predicate FirstFastest(k: nat, sessions: map<nat, Options>)
    requires k in sessions
  {
    forall j :: j in sessions ==>
      && sessions[k].minInterval <= sessions[j].minInterval
      && (j < k ==> sessions[k].minInterval < sessions[j].minInterval)
  }

  lemma {:induction false} FindInFirst(f: Found, sessions: map<nat, Options>, todo: set<nat>)
    requires todo <= sessions.Keys && (forall k :: k in todo ==> sessions[k].size != 0)
    ensures var r := FindIn(f, sessions, todo).options;
            if todo == {} || (f.options.size != 0
                              && forall j :: j in todo ==> f.options.minInterval <= sessions[j].minInterval)
            then r == f.options
            else exists k :: k in todo && r == sessions[k]
                             && (f.options.size != 0 ==> r.minInterval < f.options.minInterval)
                             && forall j :: j in todo ==>
                                  && r.minInterval <= sessions[j].minInterval
                                  && (j < k ==> r.minInterval < sessions[j].minInterval)
    decreases |todo|
  {
    if todo != {} {
      var k := MinOf(todo);
      FindInFirst(Consider(f, sessions[k]), sessions, todo - {k});
    }
  }

  /**
   What joining the others sends: the options of the first fastest one, with the new interval if it is
   smaller and the new power mode if it is stronger, and nothing at all if neither is so.
   */
  ghost predicate JoinSends(c: Command, others: map<nat, Options>, o: Options) {
    exists s :: FastestOf(s, others)
                && var faster, stronger := o.minInterval < s.minInterval, o.powerMode < LoopMin(Powers(others));
                   && (c.StartFix? <==> faster || stronger) && !c.StopFix?
                   && (c.StartFix? ==>
                         && c.options.minInterval == (if faster then o.minInterval else s.minInterval)
                         && c.options.powerMode == (if stronger then o.powerMode else s.powerMode)
                         && c.options.size == s.size && c.options.minDistance == s.minDistance
                         && c.options.mode == s.mode && c.options.tbm == s.tbm)
  }

  lemma CombinedSends(sessions: map<nat, Options>, key: nat, o: Options)
    requires key in sessions && sessions.Keys - {key} != {}
    requires forall k :: k in sessions ==> sessions[k].size != 0
    ensures JoinSends(Combined(Others(sessions, key), o), sessions - {key}, o)
  {
    OthersIs(sessions, key);
    OthersFirst(sessions, key);
    hide Others, LoopMin, Powers, FastestOf;
    assert FastestOf(Others(sessions, key).options, sessions - {key});
  }

  lemma OthersFirst(sessions: map<nat, Options>, key: nat)
    requires key in sessions && sessions.Keys - {key} != {}
    requires forall k :: k in sessions ==> sessions[k].size != 0
    ensures FastestOf(Others(sessions, key).options, sessions - {key})
  {
    var others, r := sessions - {key}, Others(sessions, key).options;
    FindInFirst(NOTHING_FOUND, sessions, sessions.Keys - {key});
    hide FindIn;
    var k :| k in sessions.Keys - {key} && r == sessions[k]
             && forall j :: j in sessions.Keys - {key} ==>
                  && r.minInterval <= sessions[j].minInterval
                  && (j < k ==> r.minInterval < sessions[j].minInterval);
    assert others.Keys == sessions.Keys - {key} && others[k] == sessions[k];
    forall j | j in others ensures j in sessions.Keys - {key} && others[j] == sessions[j] {}
    assert FirstFastest(k, others);
  }

  /** A start beside other sessions, and an update of one of several that changes it, join the others. */
  lemma StartSends(a: Adapter, key: nat, o: Options)
    requires WellFormed(a) && key !in a.timeBased && a.timeBased != map[] && o.size != 0
    ensures JoinSends(StartCommand(a, o), a.timeBased, o)
  {
    var more := a.timeBased[key := o];
    assert more.Keys - {key} == a.timeBased.Keys && more - {key} == a.timeBased;
    assert a.timeBased.Keys != {};
    SameOthers(NOTHING_FOUND, a.timeBased, more, a.timeBased.Keys);
    CombinedSends(more, key, o);
    hide JoinSends, FindIn;
  }

  lemma {:induction false} SameOthers(f: Found, fewer: map<nat, Options>, more: map<nat, Options>, todo: set<nat>)
    requires todo <= fewer.Keys && todo <= more.Keys && forall k :: k in todo ==> fewer[k] == more[k]
    ensures FindIn(f, fewer, todo) == FindIn(f, more, todo)
    decreases |todo|
  {
    if todo != {} {
      var k := MinOf(todo);
      SameOthers(Consider(f, fewer[k]), fewer, more, todo - {k});
    }
  }

  lemma UpdateSends(a: Adapter, key: nat, o: Options)
    requires WellFormed(a) && key in a.timeBased && a.timeBased.Keys != {key}
    requires a.timeBased[key].minInterval != o.minInterval || a.timeBased[key].powerMode != o.powerMode
    ensures JoinSends(UpdateCommand(a, key, o), a.timeBased - {key}, o)
  {
    NotAlone(a, key);
    OnlySession(a.timeBased, key);
    CombinedSends(a.timeBased, key, o);
    hide JoinSends, Others, Combined;
  }

  /**
   What a stop beside other sessions sends: the options of the first fastest one left, with the
   least power mode the loop finds; and that only if the stopped one was faster or stronger.
   */
  lemma StopSends(a: Adapter, key: nat)
    requires WellFormed(a) && key in a.timeBased && a.timeBased.Keys != {key}
    ensures var left, c, s := a.timeBased - {key}, StopCommand(a, key), a.timeBased[key];
            exists f :: FastestOf(f, left)
                        && var power := LoopMin(Powers(left));
                           && (c.StartFix? <==> s.minInterval < f.minInterval || s.powerMode < power) && !c.StopFix?
                           && (c.StartFix? ==> c.options == f.(powerMode := power))
  {
    NotAlone(a, key);
    OnlySession(a.timeBased, key);
    OthersIs(a.timeBased, key);
    OthersFirst(a.timeBased, key);
    hide Others, LoopMin, Powers, FastestOf;
    assert FastestOf(Others(a.timeBased, key).options, a.timeBased - {key});
  }

  lemma LeastOfMore(powers: map<nat, nat>, key: nat, x: nat, i: nat)
    requires key !in powers && i in powers
    requires exists j :: j in powers && IsLeast(powers[j], powers)
    ensures var p := if forall k :: k in powers ==> x < powers[k] then x else powers[i];
            IsLeast(p, powers[key := x]) <==> (forall k :: k in powers ==> x < powers[k]) || IsLeast(p, powers)
  {
    var next := powers[key := x];
    var j :| j in powers && IsLeast(powers[j], powers);
    assert next[key] == x && next[j] == powers[j] && next[i] == powers[i];
  }

  /**
   So where no invalid mode is forgotten among the others, joining them sends the strongest power
   mode exactly if the new one is stronger than all of theirs, or the fastest one has the strongest.
   */
  lemma JoinSendsStrongestIff(c: Command, others: map<nat, Options>, key: nat, o: Options)
    requires key !in others && JoinSends(c, others, o) && c.StartFix? && !ForgetsZero(Powers(others))
    ensures var powers := Powers(others);
            IsLeast(c.options.powerMode, powers[key := o.powerMode]) <==>
              (forall k :: k in powers ==> o.powerMode < powers[k]) || IsLeast(c.options.powerMode, powers)
  {
    var powers := Powers(others);
    var s :| FastestOf(s, others)
             && c.options.powerMode == if o.powerMode < LoopMin(powers) then o.powerMode else s.powerMode;
    var i :| i in others && s == others[i];
    assert powers.Keys == others.Keys && i in powers && powers[i] == s.powerMode;
    LoopMinIff(powers);
    hide LoopMin, ForgetsZero, FastestOf, JoinSends;
    var j :| j in powers && powers[j] == LoopMin(powers);
    assert o.powerMode < LoopMin(powers) <==> forall k :: k in powers ==> o.powerMode < powers[k];
    hide Powers;
    LeastOfMore(powers, key, o.powerMode, i);
  }

  // ----- after an engine restart --------------------------------------------------

  /** The strongest of the valid power modes, or the invalid one when there is no other. */
  ghost predicate IsStrongestValid(p: nat, sessions: map<nat, Options>) {
    && (exists k :: k in sessions && sessions[k].powerMode == p)
    && (forall k :: k in sessions && sessions[k].powerMode != POWER_MODE_INVALID ==>
          p != POWER_MODE_INVALID && p <= sessions[k].powerMode)
  }

  lemma {:induction false} RestartInPower(r: Restart, sessions: map<nat, Options>, todo: set<nat>)
    requires todo <= sessions.Keys && (forall k :: k in todo ==> sessions[k].size != 0) && r.highest.size != 0
    ensures var p, q := r.highest.powerMode, RestartIn(r, sessions, todo).highest.powerMode;
            && (p == POWER_MODE_INVALID <==> q == POWER_MODE_INVALID)
            && (q == p || exists k :: k in todo && sessions[k].powerMode == q)
            && q <= p
            && (p != POWER_MODE_INVALID ==>
                  forall k :: k in todo && sessions[k].powerMode != POWER_MODE_INVALID ==> q <= sessions[k].powerMode)
    decreases |todo|
  {
    if todo != {} {
      var k := MinOf(todo);
      RestartInPower(ConsiderRestart(r, sessions[k]), sessions, todo - {k});
    }
  }

  /** Both loops keep the first fastest session. */
  lemma {:induction false} SameSmallest(r: Restart, f: Found, sessions: map<nat, Options>, todo: set<nat>)
    requires todo <= sessions.Keys && r.smallest == f.options
    ensures RestartIn(r, sessions, todo).smallest == FindIn(f, sessions, todo).options
    decreases |todo|
  {
    if todo != {} {
      var s := sessions[MinOf(todo)];
      SameSmallest(ConsiderRestart(r, s), Consider(f, s), sessions, todo - {MinOf(todo)});
    }
  }

  /** After a restart the engine has the interval, the distance and the mode of the first fastest session. */
  lemma RestartGoesByFastest(a: Adapter)
    requires WellFormed(a) && a.timeBased != map[]
    ensures var engine := AfterEngineUp(a).engine;
            engine.Some? && engine.value.size == 28
            && exists k :: k in a.timeBased && FirstFastest(k, a.timeBased)
                           && engine.value.minInterval == a.timeBased[k].minInterval
                           && engine.value.minDistance == a.timeBased[k].minDistance
                           && engine.value.mode == a.timeBased[k].mode
  {
    var sessions := a.timeBased;
    SameSmallest(Restart(BLANK, BLANK), NOTHING_FOUND, sessions, sessions.Keys);
    FindInFirst(NOTHING_FOUND, sessions, sessions.Keys);
    var r := FindIn(NOTHING_FOUND, sessions, sessions.Keys).options;
    hide FindIn, RestartIn;
    var k :| k in sessions.Keys && r == sessions[k]
             && forall j :: j in sessions.Keys ==>
                  && r.minInterval <= sessions[j].minInterval
                  && (j < k ==> r.minInterval < sessions[j].minInterval);
    assert FirstFastest(k, sessions);
  }

  /**
   After a restart the engine has the strongest valid power mode of the sessions exactly if the
   first session in key order has a valid one, or none has: an invalid first mode sticks.
   */
  lemma RestartPowerIff(a: Adapter)
    requires WellFormed(a) && a.timeBased != map[]
    ensures var next, first := AfterEngineUp(a), a.timeBased[MinOf(a.timeBased.Keys)];
            && next.engine.Some?
            && (IsStrongestValid(next.engine.value.powerMode, a.timeBased) <==>
                  || first.powerMode != POWER_MODE_INVALID
                  || forall k :: k in a.timeBased ==> a.timeBased[k].powerMode == POWER_MODE_INVALID)
  {
    var sessions := a.timeBased;
    var k := MinOf(sessions.Keys);
    var r := ConsiderRestart(Restart(BLANK, BLANK), sessions[k]);
    RestartInPower(r, sessions, sessions.Keys - {k});
    assert r.highest == sessions[k];
    assert sessions.Keys == (sessions.Keys - {k}) + {k};
    var q := RestartIn(r, sessions, sessions.Keys - {k}).highest.powerMode;
    assert AfterEngineUp(a).engine.value.powerMode == q;
    hide RestartIn;
  }
}
