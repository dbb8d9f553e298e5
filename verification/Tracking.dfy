/**
 The tracking multiplexer: many time-based sessions share one engine session.

 Session keys are represented by their rank in the order of the session maps.  The engine
 answers success before the next command is handled.
 */
module Tracking {
  import opened Ordered
  import opened Wrappers

  const MIN_TRACKING_INTERVAL := 100
  const TRACKING_TBM_THRESHOLD_MILLIS := 480000

  const SIZEOF_TRACKING_OPTIONS := 28

  const POWER_MODE_INVALID := 0
  const POWER_MODE_M2 := 2
  const POWER_MODE_M4 := 4

  /** `size` is zero in options nobody filled in. */
  datatype Options = Options(size: nat, minInterval: nat, minDistance: nat, mode: nat, powerMode: nat, tbm: nat)

  const BLANK := Options(0, 0, 0, 0, 0, 0)

  datatype Command = NoCommand | StartFix(options: Options) | StopFix

  /** `engine` is what the engine's one time-based session is programmed with, if it runs. */
  datatype Adapter = Adapter(
    timeBased: map<nat, Options>,
    distanceBased: map<nat, Options>,
    engine: Option<Options>,
    distanceSupported: bool)

  function Obey(engine: Option<Options>, c: Command): Option<Options> {
    match c
    case NoCommand => engine
    case StartFix(options) => Some(options)
    case StopFix => None
  }

  // ----- the loops, as functions --------------------------------------------------

  /** The smallest-interval options and the smallest power mode found so far. */
  datatype Found = Found(options: Options, powerMode: nat)

  const NOTHING_FOUND := Found(BLANK, POWER_MODE_INVALID)

  function Consider(f: Found, s: Options): Found {
    Found(if f.options.size == 0 || s.minInterval < f.options.minInterval then s else f.options,
          if f.powerMode == POWER_MODE_INVALID || s.powerMode < f.powerMode then s.powerMode else f.powerMode)
  }

  ghost function FindIn(f: Found, sessions: map<nat, Options>, todo: set<nat>): Found
    requires todo <= sessions.Keys
    decreases |todo|
  {
    if todo == {} then f else
      FindIn(Consider(f, sessions[MinOf(todo)]), sessions, todo - {MinOf(todo)})
  }

  ghost function Others(sessions: map<nat, Options>, key: nat): Found {
    FindIn(NOTHING_FOUND, sessions, sessions.Keys - {key})
  }

  /** The restart loop: smallest interval, and the options with the highest power. */
  datatype Restart = Restart(smallest: Options, highest: Options)

  function ConsiderRestart(r: Restart, s: Options): Restart {
    Restart(if r.smallest.size == 0 || s.minInterval < r.smallest.minInterval then s else r.smallest,
            if r.highest.size == 0 || (s.powerMode != POWER_MODE_INVALID && s.powerMode < r.highest.powerMode)
            then s else r.highest)
  }

  ghost function RestartIn(r: Restart, sessions: map<nat, Options>, todo: set<nat>): Restart
    requires todo <= sessions.Keys
    decreases |todo|
  {
    if todo == {} then r else
      RestartIn(ConsiderRestart(r, sessions[MinOf(todo)]), sessions, todo - {MinOf(todo)})
  }

  // ----- what each handler does ---------------------------------------------------

  ghost function StartCommand(a: Adapter, o: Options): Command {
    if a.timeBased == map[] then StartFix(o) else
      var f := FindIn(NOTHING_FOUND, a.timeBased, a.timeBased.Keys);
      Combined(f, o)
  }

  /** What is sent when `o` joins the sessions summarised in `f`. */
  function Combined(f: Found, o: Options): Command {
    var faster, stronger := o.minInterval < f.options.minInterval, o.powerMode < f.powerMode;
    var timed := if faster then f.options.(minInterval := o.minInterval) else f.options;
    if faster || stronger then StartFix(if stronger then timed.(powerMode := o.powerMode) else timed)
    else NoCommand
  }

  ghost function UpdateCommand(a: Adapter, key: nat, o: Options): Command
    requires key in a.timeBased
  {
    var s := a.timeBased[key];
    if s.minInterval == o.minInterval && s.powerMode == o.powerMode then NoCommand
    else if |a.timeBased| == 1 then StartFix(o)
    else Combined(Others(a.timeBased, key), o)
  }

  ghost function StopCommand(a: Adapter, key: nat): Command {
    if |a.timeBased| == 1 then StopFix
    else if key !in a.timeBased then NoCommand
    else
      var f, s := Others(a.timeBased, key), a.timeBased[key];
      if s.minInterval < f.options.minInterval || s.powerMode < f.powerMode
      then StartFix(f.options.(powerMode := f.powerMode)) else NoCommand
  }

  function Saved(a: Adapter, key: nat, o: Options): Adapter {
    if o.minDistance > 0 && a.distanceSupported then a.(distanceBased := a.distanceBased[key := o])
    else a.(timeBased := a.timeBased[key := o])
  }

  function Erased(a: Adapter, key: nat): Adapter {
    if key in a.timeBased then a.(timeBased := a.timeBased - {key})
    else a.(distanceBased := a.distanceBased - {key})
  }

  function PowerFallback(o: Options): Options {
    if o.powerMode == POWER_MODE_M4 && o.tbm > TRACKING_TBM_THRESHOLD_MILLIS
    then o.(powerMode := POWER_MODE_M2) else o
  }

  function Clamped(o: Options): Options {
    if o.minInterval < MIN_TRACKING_INTERVAL then o.(minInterval := MIN_TRACKING_INTERVAL) else o
  }

  ghost function AfterStart(a: Adapter, key: nat, o: Options, hasCallback: bool, known: bool): Adapter {
    if !known && o.minDistance > 0 then a                 // kept for when capabilities are known
    else if !hasCallback || o.size == 0 then a            // refused
    else if o.minDistance > 0 && a.distanceSupported then Saved(a, key, Clamped(o))
    else
      var p := PowerFallback(Clamped(o));
      Saved(a.(engine := Obey(a.engine, StartCommand(a, p))), key, p)
  }

  ghost function AfterUpdate(a: Adapter, key: nat, o: Options, known: bool): Adapter {
    if !known && o.minDistance > 0 then a
    else if (key !in a.timeBased && key !in a.distanceBased) || o.size == 0 then a
    else
      var p := Clamped(PowerFallback(o));
      if key in a.timeBased && p.minDistance > 0
      then Saved(Erased(a.(engine := Obey(a.engine, StopCommand(a, key))), key), key, p)
      else if key in a.distanceBased && p.minDistance == 0
      then (var b := Erased(a, key); Saved(b.(engine := Obey(b.engine, StartCommand(b, p))), key, p))
      else if key in a.timeBased
      then Saved(a.(engine := Obey(a.engine, UpdateCommand(a, key, p))), key, p)
      else Saved(a, key, p)
  }

  ghost function AfterStop(a: Adapter, key: nat): Adapter {
    if key in a.timeBased then Erased(a.(engine := Obey(a.engine, StopCommand(a, key))), key)
    else if key in a.distanceBased then Erased(a, key)
    else a
  }

  ghost function RestartCommand(a: Adapter): Command {
    if a.timeBased == map[] then NoCommand else
      var r := RestartIn(Restart(BLANK, BLANK), a.timeBased, a.timeBased.Keys);
      StartFix(r.highest.(size := SIZEOF_TRACKING_OPTIONS, minInterval := r.smallest.minInterval,
                          minDistance := r.smallest.minDistance, mode := r.smallest.mode))
  }

  /** The engine came up again, with no session. */
  ghost function AfterEngineUp(a: Adapter): Adapter {
    a.(engine := Obey(None, RestartCommand(a)))
  }

  // ----- the adapter, in place ----------------------------------------------------

  class GnssAdapter {
    var mTimeBasedTrackingSessions: map<nat, Options>
    var mDistanceBasedTrackingSessions: map<nat, Options>
    const distanceSupported: bool
    ghost var engine: Option<Options>

    ghost function View(): Adapter
      reads this
    {
      Adapter(mTimeBasedTrackingSessions, mDistanceBasedTrackingSessions, engine, distanceSupported)
    }

    constructor (supported: bool)
      ensures View() == Adapter(map[], map[], None, supported)
    {
      mTimeBasedTrackingSessions := map[];
      mDistanceBasedTrackingSessions := map[];
      engine := None;
      distanceSupported := supported;
    }

    method StartTracking(key: nat, options: Options, hasCallback: bool, known: bool)
      modifies this
      ensures View() == AfterStart(old(View()), key, options, hasCallback, known)
    {
      if !known && options.minDistance > 0 {
        return;
      }
      if !hasCallback || options.size == 0 {
        return;
      }
      var o := options;
      if o.minInterval < MIN_TRACKING_INTERVAL {
        o := o.(minInterval := MIN_TRACKING_INTERVAL);
      }
      if o.minDistance > 0 && distanceSupported {
        SaveTrackingSession(key, o);
      } else {
        if o.powerMode == POWER_MODE_M4 && o.tbm > TRACKING_TBM_THRESHOLD_MILLIS {
          o := o.(powerMode := POWER_MODE_M2);
        }
        var _ := StartTimeBasedTrackingMultiplex(o);
        SaveTrackingSession(key, o);
      }
    }

    method UpdateTracking(key: nat, options: Options, known: bool)
      modifies this
      ensures View() == AfterUpdate(old(View()), key, options, known)
    {
      if !known && options.minDistance > 0 {
        return;
      }
      var isTimeBased := key in mTimeBasedTrackingSessions;
      var isDistanceBased := key in mDistanceBasedTrackingSessions;
      if (!isTimeBased && !isDistanceBased) || options.size == 0 {
        return;
      }
      var o := options;
      if o.powerMode == POWER_MODE_M4 && o.tbm > TRACKING_TBM_THRESHOLD_MILLIS {
        o := o.(powerMode := POWER_MODE_M2);
      }
      if o.minInterval < MIN_TRACKING_INTERVAL {
        o := o.(minInterval := MIN_TRACKING_INTERVAL);
      }
      if isTimeBased && o.minDistance > 0 {
        var _ := StopTimeBasedTrackingMultiplex(key);
        EraseTrackingSession(key);
        SaveTrackingSession(key, o);
      } else if isDistanceBased && o.minDistance == 0 {
        EraseTrackingSession(key);
        var _ := StartTimeBasedTrackingMultiplex(o);
        SaveTrackingSession(key, o);
      } else if isTimeBased {
        var _ := UpdateTrackingMultiplex(key, o);
        SaveTrackingSession(key, o);
      } else {
        SaveTrackingSession(key, o);
      }
    }

    method StopTracking(key: nat)
      modifies this
      ensures View() == AfterStop(old(View()), key)
    {
      if key in mTimeBasedTrackingSessions {
        var _ := StopTimeBasedTrackingMultiplex(key);
        EraseTrackingSession(key);
      } else if key in mDistanceBasedTrackingSessions {
        EraseTrackingSession(key);
      }
    }

    method SaveTrackingSession(key: nat, options: Options)
      modifies this`mTimeBasedTrackingSessions, this`mDistanceBasedTrackingSessions
      ensures View() == Saved(old(View()), key, options)
    {
      if options.minDistance > 0 && distanceSupported {
        mDistanceBasedTrackingSessions := mDistanceBasedTrackingSessions[key := options];
      } else {
        mTimeBasedTrackingSessions := mTimeBasedTrackingSessions[key := options];
      }
    }

    method EraseTrackingSession(key: nat)
      modifies this`mTimeBasedTrackingSessions, this`mDistanceBasedTrackingSessions
      ensures View() == Erased(old(View()), key)
    {
      if key in mTimeBasedTrackingSessions {
        mTimeBasedTrackingSessions := mTimeBasedTrackingSessions - {key};
      } else {
        mDistanceBasedTrackingSessions := mDistanceBasedTrackingSessions - {key};
      }
    }

    /** True when the client can be answered at once; otherwise the engine was called. */
    method StartTimeBasedTrackingMultiplex(options: Options) returns (reportToClientWithNoWait: bool)
      modifies this`engine
      ensures engine == Obey(old(engine), StartCommand(old(View()), options))
      ensures reportToClientWithNoWait == StartCommand(old(View()), options).NoCommand?
    {
      reportToClientWithNoWait := true;
      if mTimeBasedTrackingSessions == map[] {
        StartTimeBasedTracking(options);
        return false;
      }
      var multiplexedOptions := BLANK;
      var multiplexedPowerMode: nat := POWER_MODE_INVALID;
      var todo := mTimeBasedTrackingSessions.Keys;
      while todo != {}
        invariant todo <= mTimeBasedTrackingSessions.Keys
        invariant FindIn(Found(multiplexedOptions, multiplexedPowerMode), mTimeBasedTrackingSessions, todo)
                  == FindIn(NOTHING_FOUND, mTimeBasedTrackingSessions, mTimeBasedTrackingSessions.Keys)
        decreases todo
      {
        var it := MinOf(todo);
        var s := mTimeBasedTrackingSessions[it];
        if multiplexedOptions.size == 0 || s.minInterval < multiplexedOptions.minInterval {
          multiplexedOptions := s;
        }
        if multiplexedPowerMode == POWER_MODE_INVALID || s.powerMode < multiplexedPowerMode {
          multiplexedPowerMode := s.powerMode;
        }
        todo := todo - {it};
      }
      var updateOptions := false;
      if options.minInterval < multiplexedOptions.minInterval {
        multiplexedOptions := multiplexedOptions.(minInterval := options.minInterval);
        updateOptions := true;
      }
      if options.powerMode < multiplexedPowerMode {
        multiplexedOptions := multiplexedOptions.(powerMode := options.powerMode);
        updateOptions := true;
      }
      if updateOptions {
        StartTimeBasedTracking(multiplexedOptions);
        reportToClientWithNoWait := false;
      }
    }

    /** The loop update and stop share: the smallest interval and power mode of the other sessions. */
    method FindOthers(key: nat) returns (multiplexedOptions: Options, multiplexedPowerMode: nat)
      ensures Found(multiplexedOptions, multiplexedPowerMode) == Others(mTimeBasedTrackingSessions, key)
    {
      multiplexedOptions, multiplexedPowerMode := BLANK, POWER_MODE_INVALID;
      var sessions := mTimeBasedTrackingSessions;
      var todo := sessions.Keys;
      while todo != {}
        invariant todo <= sessions.Keys
        invariant FindIn(Found(multiplexedOptions, multiplexedPowerMode), sessions, todo - {key})
                  == Others(sessions, key)
        decreases todo
      {
        var it := MinOf(todo);
        var s := sessions[it];
        if it != key {
          SkippingKeepsMin(todo, key);
          assert (todo - {it}) - {key} == (todo - {key}) - {it};
        } else {
          assert (todo - {it}) - {key} == todo - {key};
        }
        if it != key && (multiplexedOptions.size == 0 || s.minInterval < multiplexedOptions.minInterval) {
          multiplexedOptions := s;
        }
        if it != key && (multiplexedPowerMode == POWER_MODE_INVALID || s.powerMode < multiplexedPowerMode) {
          multiplexedPowerMode := s.powerMode;
        }
        todo := todo - {it};
      }
      assert todo - {key} == {};
    }

    method UpdateTrackingMultiplex(key: nat, options: Options) returns (reportToClientWithNoWait: bool)
      requires key in mTimeBasedTrackingSessions
      modifies this`engine
      ensures engine == Obey(old(engine), UpdateCommand(old(View()), key, options))
      ensures reportToClientWithNoWait == UpdateCommand(old(View()), key, options).NoCommand?
    {
      reportToClientWithNoWait := true;
      var s := mTimeBasedTrackingSessions[key];
      if s.minInterval != options.minInterval || s.powerMode != options.powerMode {
        var multiplexedOptions, multiplexedPowerMode := FindOthers(key);
        var updateOptions := false;
        if options.minInterval < multiplexedOptions.minInterval {
          multiplexedOptions := multiplexedOptions.(minInterval := options.minInterval);
          updateOptions := true;
        }
        if options.powerMode < multiplexedPowerMode {
          multiplexedOptions := multiplexedOptions.(powerMode := options.powerMode);
          updateOptions := true;
        }
        if |mTimeBasedTrackingSessions| == 1 {
          multiplexedOptions := options;
          updateOptions := true;
        }
        if updateOptions {
          StartTimeBasedTracking(multiplexedOptions);
          reportToClientWithNoWait := false;
        }
      }
    }

    method StopTimeBasedTrackingMultiplex(key: nat) returns (reportToClientWithNoWait: bool)
      modifies this`engine
      ensures engine == Obey(old(engine), StopCommand(old(View()), key))
      ensures reportToClientWithNoWait == StopCommand(old(View()), key).NoCommand?
    {
      reportToClientWithNoWait := true;
      if |mTimeBasedTrackingSessions| == 1 {
        engine := None;
        reportToClientWithNoWait := false;
      } else if key in mTimeBasedTrackingSessions {
        var s := mTimeBasedTrackingSessions[key];
        var multiplexedOptions, multiplexedPowerMode := FindOthers(key);
        if s.minInterval < multiplexedOptions.minInterval || s.powerMode < multiplexedPowerMode {
          multiplexedOptions := multiplexedOptions.(powerMode := multiplexedPowerMode);
          StartTimeBasedTracking(multiplexedOptions);
          reportToClientWithNoWait := false;
        }
      }
    }

    method StartTimeBasedTracking(options: Options)
      modifies this`engine
      ensures engine == Some(options)
    {
      engine := Some(options);
    }

    /** Called when the engine is up again after a restart. */
    method RestartSessions()
      modifies this`engine
      ensures View() == AfterEngineUp(old(View()))
    {
      engine := None;
      if mTimeBasedTrackingSessions != map[] {
        var smallest, highest := BLANK, BLANK;
        var todo := mTimeBasedTrackingSessions.Keys;
        while todo != {}
          invariant todo <= mTimeBasedTrackingSessions.Keys
          invariant RestartIn(Restart(smallest, highest), mTimeBasedTrackingSessions, todo)
                    == RestartIn(Restart(BLANK, BLANK), mTimeBasedTrackingSessions, mTimeBasedTrackingSessions.Keys)
          decreases todo
        {
          var it := MinOf(todo);
          var s := mTimeBasedTrackingSessions[it];
          if smallest.size == 0 || s.minInterval < smallest.minInterval {
            smallest := s;
          }
          var powerMode := s.powerMode;
          if highest.size == 0 || (powerMode != POWER_MODE_INVALID && powerMode < highest.powerMode) {
            highest := s;
          }
          todo := todo - {it};
        }
        // setLocationOptions: everything but the power mode and the time between measurements
        highest := highest.(size := SIZEOF_TRACKING_OPTIONS, minInterval := smallest.minInterval,
                            minDistance := smallest.minDistance, mode := smallest.mode);
        engine := Some(highest);
      }
    }
  }

  lemma SkippingKeepsMin(todo: set<nat>, key: nat)
    requires todo != {} && MinOf(todo) != key
    ensures todo - {key} != {} && MinOf(todo - {key}) == MinOf(todo)
  {
    assert MinOf(todo) in todo - {key};
  }
}
