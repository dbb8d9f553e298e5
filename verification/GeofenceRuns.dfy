/**
 What the geofence index keeps over runs: the two maps are inverses of each other except for
 geofences whose client has stopped, the table mirrors the engine's, and a restart of the
 engine brings back every geofence it accepts, though it forgets locally which were paused.
 */
module GeofenceRuns {
  import opened Ordered
  import opened Geofence

  /** The index, the engine's own table, and the geofences of stopped clients still in it. */
  datatype World = World(index: Index, engine: map<nat, GeofenceObject>, orphans: set<nat>)

  /** A client's command with the engine's answer to it, or something the engine does. */
  datatype Move =
    | Add(key: GeofenceKey, option: GeofenceOption, info: GeofenceInfo, answer: Answer)
    | Remove(key: GeofenceKey, success: bool)
    | Pause(key: GeofenceKey, success: bool)
    | Resume(key: GeofenceKey, success: bool)
    | Modify(key: GeofenceKey, option: GeofenceOption, success: bool)
    | StopClient(client: nat)
    | StopAnswer(hwId: nat, success: bool)
    | EngineUp(answers: map<nat, Answer>, refused: set<nat>)  // the pauses refused, by new id

  /** The engine's table when it accepts every pause: what came back, paused again where it had been. */
  ghost function ReaddedEngine(engine: map<nat, GeofenceObject>, before: map<nat, GeofenceObject>,
                               todo: set<nat>, answers: map<nat, Answer>): map<nat, GeofenceObject>
    requires todo <= before.Keys && todo <= answers.Keys
    decreases |todo|
  {
    if todo == {} then engine else
      var h := MinOf(todo);
      var next := if answers[h].Added? then engine[answers[h].hwId := before[h]] else engine;
      ReaddedEngine(next, before, todo - {h}, answers)
  }

  /** The engine's table when it refuses some of the pauses; nobody looks at these answers. */
  ghost function Refuse(engine: map<nat, GeofenceObject>, refused: set<nat>): map<nat, GeofenceObject> {
    map n | n in engine :: if n in refused then engine[n].(paused := false) else engine[n]
  }

  ghost function Accepting(w: World, answers: map<nat, Answer>): map<nat, GeofenceObject>
    requires w.index.geofences.Keys <= answers.Keys
  {
    ReaddedEngine(map[], w.index.geofences, w.index.geofences.Keys, answers)
  }

  ghost function Next(w: World, m: Move): World
    requires Legal(w, m)
  {
    match m
    case Add(key, option, info, answer) =>
      (match answer
       case Failed => w
       case Added(h) =>
         World(Saved(w.index, key, h, option, info),
               w.engine[h := GeofenceObject(key, option, info, false)], w.orphans))
    case StopClient(client) => World(Stopped(w.index, client), w.engine, w.orphans + HwIdsOf(w.index, client))
    case StopAnswer(h, success) =>
      if success then World(Erased(w.index, h), w.engine - {h}, w.orphans - {h}) else w
    case EngineUp(answers, refused) =>
      World(Restarted(w.index, answers), Refuse(Accepting(w, answers), refused), {})
    case _ =>
      if m.key !in w.index.ids || !m.success then w else OnFence(w, m, w.index.ids[m.key])
  }

  /** What the engine does to its own table when it agrees to a command for one of its geofences. */
  ghost function Obeyed(engine: map<nat, GeofenceObject>, m: Move, h: nat): map<nat, GeofenceObject>
    requires m.Remove? || m.Pause? || m.Resume? || m.Modify?
  {
    if h !in engine then engine else
      match m
      case Remove(_, _) => engine - {h}
      case Pause(_, _) => engine[h := engine[h].(paused := true)]
      case Resume(_, _) => engine[h := engine[h].(paused := false)]
      case Modify(_, option, _) => engine[h := engine[h].(option := option)]
  }

  /** A command for a geofence that is known, after the engine agreed. */
  ghost function OnFence(w: World, m: Move, h: nat): World
    requires m.Remove? || m.Pause? || m.Resume? || m.Modify?
  {
    var engine := Obeyed(w.engine, m, h);
    match m
    case Remove(_, _) => World(Removed(w.index, h), engine, w.orphans)
    case Pause(_, _) => World(Paused(w.index, h, true), engine, w.orphans)
    case Resume(_, _) => World(Paused(w.index, h, false), engine, w.orphans)
    case Modify(_, option, _) => World(Modified(w.index, h, option), engine, w.orphans)
  }

  ghost predicate Distinct(todo: set<nat>, answers: map<nat, Answer>)
    requires todo <= answers.Keys
  {
    forall g, h :: g in todo && h in todo && answers[g].Added? && answers[g] == answers[h] ==> g == h
  }

  /** Generated ids are new, the engine hands out unused ids, and answers only what it was asked. */
  ghost predicate Legal(w: World, m: Move) {
    match m
    case Add(key, _, _, answer) =>
      && key !in w.index.ids
      && (forall h :: h in w.index.geofences ==> w.index.geofences[h].key != key)
      && (answer.Added? ==> answer.hwId !in w.engine && answer.hwId !in w.index.geofences)
    case StopAnswer(h, _) => h in w.orphans
    case EngineUp(answers, _) =>
      w.index.geofences.Keys <= answers.Keys && Distinct(w.index.geofences.Keys, answers)
    case _ => true
  }

  // ----- the invariant ------------------------------------------------------------

  ghost predicate DistinctKeys(geofences: map<nat, GeofenceObject>) {
    forall g, h :: g in geofences && h in geofences && geofences[g].key == geofences[h].key ==> g == h
  }

  /** Key and engine id find each other, unless the client has stopped. */
  ghost predicate Inverse(x: Index, orphans: set<nat>) {
    && (forall k :: k in x.ids ==>
          x.ids[k] in x.geofences && x.geofences[x.ids[k]].key == k && x.ids[k] !in orphans)
    && (forall h :: h in x.geofences && h !in orphans ==>
          x.geofences[h].key in x.ids && x.ids[x.geofences[h].key] == h)
    && (forall h :: h in orphans ==> h in x.geofences && x.geofences[h].key !in x.ids)
    && DistinctKeys(x.geofences)
  }

  /** The same geofences as in the engine; one that is paused here is paused there. */
  ghost predicate Mirrors(geofences: map<nat, GeofenceObject>, engine: map<nat, GeofenceObject>) {
    && geofences.Keys == engine.Keys
    && (forall h :: h in geofences ==>
          && engine[h].(paused := geofences[h].paused) == geofences[h]
          && (geofences[h].paused ==> engine[h].paused))
  }

  ghost predicate Inv(w: World) {
    Inverse(w.index, w.orphans) && Mirrors(w.index.geofences, w.engine)
  }

  const START := World(EMPTY, map[], {})

  ghost predicate LegalRun(w: World, run: seq<Move>)
    decreases |run|
  {
    run == [] || (Legal(w, run[0]) && LegalRun(Next(w, run[0]), run[1..]))
  }

  ghost function Run(w: World, run: seq<Move>): World
    requires LegalRun(w, run)
    decreases |run|
  {
    if run == [] then w else Run(Next(w, run[0]), run[1..])
  }

  // ----- a restart ----------------------------------------------------------------

  /** Each geofence of `done` that the engine took back is found under its new id and its key. */
  ghost predicate IsBack(x: Index, engine: map<nat, GeofenceObject>, fence: GeofenceObject, n: nat) {
    && n in x.geofences && x.geofences[n] == fence.(paused := false)
    && fence.key in x.ids && x.ids[fence.key] == n
    && n in engine && engine[n] == fence
  }

  ghost predicate AllBack(x: Index, engine: map<nat, GeofenceObject>,
                          before: map<nat, GeofenceObject>, done: set<nat>, answers: map<nat, Answer>)
    requires done <= before.Keys && done <= answers.Keys
  {
    forall h :: h in done && answers[h].Added? ==> IsBack(x, engine, before[h], answers[h].hwId)
  }

  ghost function NewIds(done: set<nat>, answers: map<nat, Answer>): set<nat>
    requires done <= answers.Keys
  {
    set h | h in done && answers[h].Added? :: answers[h].hwId
  }

  ghost function KeysOf(before: map<nat, GeofenceObject>, done: set<nat>, answers: map<nat, Answer>): set<GeofenceKey>
    requires done <= before.Keys && done <= answers.Keys
  {
    set h | h in done && answers[h].Added? :: before[h].key
  }

  /** A geofence as its client knows it. */
  function Fence(g: GeofenceObject): (GeofenceKey, GeofenceOption, GeofenceInfo) { (g.key, g.option, g.info) }

  ghost function Fences(geofences: map<nat, GeofenceObject>): set<(GeofenceKey, GeofenceOption, GeofenceInfo)> {
    set h | h in geofences :: Fence(geofences[h])
  }

  ghost function FencesOf(before: map<nat, GeofenceObject>, done: set<nat>, answers: map<nat, Answer>)
      : set<(GeofenceKey, GeofenceOption, GeofenceInfo)>
    requires done <= before.Keys && done <= answers.Keys
  {
    set h | h in done && answers[h].Added? :: Fence(before[h])
  }

  /** And nothing else is there. */
  ghost predicate CameBack(x: Index, engine: map<nat, GeofenceObject>,
                           before: map<nat, GeofenceObject>, done: set<nat>, answers: map<nat, Answer>)
    requires done <= before.Keys && done <= answers.Keys
  {
    && AllBack(x, engine, before, done, answers)
    && x.geofences.Keys == NewIds(done, answers) && engine.Keys == x.geofences.Keys
    && x.ids.Keys == KeysOf(before, done, answers)
    && Fences(x.geofences) == FencesOf(before, done, answers)
  }

  lemma ReaddOneBack(x: Index, engine: map<nat, GeofenceObject>, before: map<nat, GeofenceObject>,
                     done: set<nat>, h: nat, answers: map<nat, Answer>)
    requires done <= before.Keys && before.Keys <= answers.Keys && h in before && h !in done
    requires Distinct(before.Keys, answers) && DistinctKeys(before)
    requires AllBack(x, engine, before, done, answers)
    requires answers[h].Added?
    ensures AllBack(Readded(x, before[h], answers[h]), engine[answers[h].hwId := before[h]],
                    before, done + {h}, answers)
  {
    var n, y, e := answers[h].hwId, Readded(x, before[h], answers[h]), engine[answers[h].hwId := before[h]];
    forall g | g in done + {h} && answers[g].Added? ensures IsBack(y, e, before[g], answers[g].hwId) {
      if g != h {
        assert IsBack(x, engine, before[g], answers[g].hwId);
        assert answers[g] != answers[h] && before[g].key != before[h].key;
      }
    }
  }

  lemma OneMore(before: map<nat, GeofenceObject>, done: set<nat>, h: nat, answers: map<nat, Answer>)
    requires done <= before.Keys && before.Keys <= answers.Keys && h in before
    ensures NewIds(done + {h}, answers) == NewIds(done, answers) + if answers[h].Added? then {answers[h].hwId} else {}
    ensures KeysOf(before, done + {h}, answers)
      == KeysOf(before, done, answers) + if answers[h].Added? then {before[h].key} else {}
    ensures FencesOf(before, done + {h}, answers)
      == FencesOf(before, done, answers) + if answers[h].Added? then {Fence(before[h])} else {}
  {
  }

  lemma OneMoreFence(geofences: map<nat, GeofenceObject>, n: nat, fence: GeofenceObject)
    requires n !in geofences
    ensures Fences(geofences[n := fence]) == Fences(geofences) + {Fence(fence)}
  {
    var more := geofences[n := fence];
    assert Fence(more[n]) in Fences(more);
    forall h | h in geofences ensures Fence(geofences[h]) in Fences(more) {
      assert Fence(more[h]) in Fences(more);
    }
  }

  lemma SameFence(fence: GeofenceObject)
    ensures Fence(fence.(paused := false)) == Fence(fence)
  {
  }

  lemma NoneMore(x: Index, engine: map<nat, GeofenceObject>, before: map<nat, GeofenceObject>,
                 done: set<nat>, h: nat, answers: map<nat, Answer>)
    requires done <= before.Keys && before.Keys <= answers.Keys && h in before
    requires AllBack(x, engine, before, done, answers) && answers[h].Failed?
    ensures AllBack(x, engine, before, done + {h}, answers)
  {
  }

  lemma ReaddOne(x: Index, engine: map<nat, GeofenceObject>, before: map<nat, GeofenceObject>,
                 done: set<nat>, h: nat, answers: map<nat, Answer>)
    requires done <= before.Keys && before.Keys <= answers.Keys && h in before && h !in done
    requires Distinct(before.Keys, answers) && DistinctKeys(before)
    requires CameBack(x, engine, before, done, answers)
    ensures CameBack(Readded(x, before[h], answers[h]),
                     if answers[h].Added? then engine[answers[h].hwId := before[h]] else engine,
                     before, done + {h}, answers)
  {
    hide DistinctKeys, KeysOf, FencesOf, Fences, IsBack, AllBack, Fence;
    OneMore(before, done, h, answers);
    if answers[h].Added? {
      assert answers[h].hwId !in x.geofences;
      OneMoreFence(x.geofences, answers[h].hwId, before[h].(paused := false));
      assert Fence(before[h].(paused := false)) == Fence(before[h]) by { SameFence(before[h]); }
      ReaddOneBack(x, engine, before, done, h, answers);
    } else {
      assert NewIds(done + {h}, answers) == NewIds(done, answers);
      assert KeysOf(before, done + {h}, answers) == KeysOf(before, done, answers);
      assert FencesOf(before, done + {h}, answers) == FencesOf(before, done, answers);
      assert AllBack(x, engine, before, done + {h}, answers) by { NoneMore(x, engine, before, done, h, answers); }
    }
  }

  lemma {:induction false} ReaddAll(x: Index, engine: map<nat, GeofenceObject>, before: map<nat, GeofenceObject>,
                                    todo: set<nat>, answers: map<nat, Answer>)
    requires todo <= before.Keys && before.Keys <= answers.Keys
    requires Distinct(before.Keys, answers) && DistinctKeys(before)
    requires CameBack(x, engine, before, before.Keys - todo, answers)
    ensures CameBack(ReaddedAll(x, before, todo, answers), ReaddedEngine(engine, before, todo, answers),
                     before, before.Keys, answers)
    decreases |todo|
  {
    hide CameBack, Readded, Distinct, DistinctKeys;
    if todo == {} {
      assert before.Keys - todo == before.Keys;
    } else {
      var h := MinOf(todo);
      ReaddOne(x, engine, before, before.Keys - todo, h, answers);
      assert before.Keys - todo + {h} == before.Keys - (todo - {h});
      ReaddAll(Readded(x, before[h], answers[h]),
               if answers[h].Added? then engine[answers[h].hwId := before[h]] else engine,
               before, todo - {h}, answers);
    }
  }

  lemma KnownIsHeld(x: Index, orphans: set<nat>, k: GeofenceKey)
    requires Inverse(x, orphans) && k in x.ids
    ensures x.geofences != map[]
  {
    assert x.ids[k] in x.geofences;
  }

  lemma EmptyIndex(x: Index, orphans: set<nat>)
    requires Inverse(x, orphans) && x.geofences == map[]
    ensures x == EMPTY
  {
    hide Inverse;
    if k :| k in x.ids {
      KnownIsHeld(x, orphans, k);
    }
  }

  lemma EngineUpIs(w: World, answers: map<nat, Answer>, refused: set<nat>)
    requires Inv(w) && Legal(w, EngineUp(answers, refused))
    ensures var next := Next(w, EngineUp(answers, refused));
            && CameBack(next.index, Accepting(w, answers), w.index.geofences, w.index.geofences.Keys, answers)
            && next.engine == Refuse(Accepting(w, answers), refused) && next.orphans == {}
  {
    var before := w.index.geofences;
    if before == map[] {
      EmptyIndex(w.index, w.orphans);
    }
    assert before.Keys - before.Keys == {};
    ReaddAll(EMPTY, map[], before, before.Keys, answers);
  }

  /** Whatever came back is, here, not paused. */
  lemma BackUnpaused(x: Index, engine: map<nat, GeofenceObject>, before: map<nat, GeofenceObject>,
                     answers: map<nat, Answer>)
    requires before.Keys <= answers.Keys && CameBack(x, engine, before, before.Keys, answers)
    ensures forall n :: n in x.geofences ==> !x.geofences[n].paused
  {
    forall n | n in x.geofences ensures !x.geofences[n].paused {
      var h :| h in before && answers[h].Added? && answers[h].hwId == n;
      assert IsBack(x, engine, before[h], n);
    }
  }

  lemma RefuseKeeps(x: Index, engine: map<nat, GeofenceObject>, refused: set<nat>)
    requires Inv(World(x, engine, {})) && forall n :: n in x.geofences ==> !x.geofences[n].paused
    ensures Inv(World(x, Refuse(engine, refused), {}))
  {
    hide Inverse;
    assert Mirrors(x.geofences, Refuse(engine, refused));
  }

  lemma CameBackInv(x: Index, engine: map<nat, GeofenceObject>, before: map<nat, GeofenceObject>,
                    answers: map<nat, Answer>)
    requires before.Keys <= answers.Keys && DistinctKeys(before) && Distinct(before.Keys, answers)
    requires CameBack(x, engine, before, before.Keys, answers)
    ensures Inv(World(x, engine, {}))
  {
    hide IsBack, Distinct, DistinctKeys;
    forall n | n in x.geofences
      ensures exists h :: h in before && answers[h] == Added(n) && IsBack(x, engine, before[h], n)
    {
      var h :| h in before && answers[h].Added? && answers[h].hwId == n;
      assert IsBack(x, engine, before[h], n);
    }
    forall k | k in x.ids
      ensures exists h :: h in before && answers[h].Added? && before[h].key == k
                          && IsBack(x, engine, before[h], answers[h].hwId)
    {
      var h :| h in before && answers[h].Added? && before[h].key == k;
    }
    BackInv(x, engine, before, answers);
  }

  lemma BackInv(x: Index, engine: map<nat, GeofenceObject>, before: map<nat, GeofenceObject>, answers: map<nat, Answer>)
    requires before.Keys <= answers.Keys && DistinctKeys(before)
    requires engine.Keys == x.geofences.Keys
    requires forall n :: n in x.geofences ==>
               exists h :: h in before && answers[h] == Added(n) && IsBack(x, engine, before[h], n)
    requires forall k :: k in x.ids ==>
               exists h :: h in before && answers[h].Added? && before[h].key == k
                           && IsBack(x, engine, before[h], answers[h].hwId)
    ensures Inv(World(x, engine, {}))
  {
  }

  // ----- runs ---------------------------------------------------------------------

  lemma AddKeeps(w: World, m: Move)
    requires Inv(w) && Legal(w, m) && m.Add?
    ensures Inv(Next(w, m))
  {
  }

  lemma StopKeeps(w: World, m: Move)
    requires Inv(w) && Legal(w, m) && (m.StopClient? || m.StopAnswer?)
    ensures Inv(Next(w, m))
  {
  }

  lemma RemoveKeeps(w: World, m: Move, h: nat)
    requires Inv(w) && m.Remove? && m.key in w.index.ids && w.index.ids[m.key] == h
    ensures Inv(OnFence(w, m, h))
  {
  }

  /** Changing a geofence in place, here and in the engine. */
  lemma ChangeKeeps(w: World, h: nat, mine: GeofenceObject, theirs: GeofenceObject)
    requires Inv(w) && h in w.index.geofences
    requires mine.key == w.index.geofences[h].key
    requires theirs.(paused := mine.paused) == mine && (mine.paused ==> theirs.paused)
    ensures Inv(World(Index(w.index.geofences[h := mine], w.index.ids), w.engine[h := theirs], w.orphans))
  {
  }

  lemma OnFenceKeeps(w: World, m: Move, h: nat)
    requires Inv(w) && (m.Remove? || m.Pause? || m.Resume? || m.Modify?)
    requires m.key in w.index.ids && w.index.ids[m.key] == h
    ensures Inv(OnFence(w, m, h))
  {
    if m.Remove? {
      RemoveKeeps(w, m, h);
    } else {
      var next := OnFence(w, m, h);
      assert h in w.index.geofences && h in w.engine;
      ChangeKeeps(w, h, next.index.geofences[h], next.engine[h]);
    }
  }

  lemma StepKeeps(w: World, m: Move)
    requires Inv(w) && Legal(w, m)
    ensures Inv(Next(w, m))
  {
    hide Inv, OnFence;
    match m
    case Add(_, _, _, _) => AddKeeps(w, m);
    case StopClient(_) => StopKeeps(w, m);
    case StopAnswer(_, _) => StopKeeps(w, m);
    case EngineUp(answers, refused) => EngineUpKeeps(w, answers, refused);
    case _ =>
      if m.key in w.index.ids && m.success {
        OnFenceKeeps(w, m, w.index.ids[m.key]);
      }
  }

  lemma EngineUpKeeps(w: World, answers: map<nat, Answer>, refused: set<nat>)
    requires Inv(w) && Legal(w, EngineUp(answers, refused))
    ensures Inv(Next(w, EngineUp(answers, refused)))
  {
    EngineUpIs(w, answers, refused);
    var next, engine := Next(w, EngineUp(answers, refused)), Accepting(w, answers);
    hide CameBack, Distinct, DistinctKeys, Refuse, Accepting;
    CameBackInv(next.index, engine, w.index.geofences, answers);
    BackUnpaused(next.index, engine, w.index.geofences, answers);
    RefuseKeeps(next.index, engine, refused);
  }

  /** In every reachable state the two maps are inverses and the table mirrors the engine's. */
  lemma {:induction false} RunKeeps(w: World, run: seq<Move>)
    requires Inv(w) && LegalRun(w, run)
    ensures Inv(Run(w, run))
    decreases |run|
  {
    hide Inv, Next, Legal;
    if run != [] {
      StepKeeps(w, run[0]);
      RunKeeps(Next(w, run[0]), run[1..]);
    }
  }

  /** And so it is after every run of a new adapter. */
  lemma IndexOverRuns(run: seq<Move>)
    requires LegalRun(START, run)
    ensures Inv(Run(START, run))
  {
    RunKeeps(START, run);
  }

  // ----- what a restart preserves -------------------------------------------------

  /**
   After a restart the geofences are, with their options and positions, exactly those the engine
   accepted again, and each of their keys is known: also that of a client that had stopped.
   */
  lemma RestartBringsBack(w: World, answers: map<nat, Answer>, refused: set<nat>)
    requires Inv(w) && Legal(w, EngineUp(answers, refused))
    ensures var next, before := Next(w, EngineUp(answers, refused)), w.index.geofences;
            && Fences(next.index.geofences) == FencesOf(before, before.Keys, answers)
            && next.index.ids.Keys == KeysOf(before, before.Keys, answers)
            && next.orphans == {}
  {
    hide Fences, FencesOf, KeysOf, NewIds, AllBack, Inv;
    EngineUpIs(w, answers, refused);
  }

  /** So when the engine accepts them all nothing is lost, and stopped clients' geofences are revived. */
  lemma RestartKeepsAll(w: World, answers: map<nat, Answer>, refused: set<nat>)
    requires Inv(w) && Legal(w, EngineUp(answers, refused))
    requires forall h :: h in w.index.geofences ==> answers[h].Added?
    ensures var next := Next(w, EngineUp(answers, refused));
            && Fences(next.index.geofences) == Fences(w.index.geofences)
            && next.index.ids.Keys == w.index.ids.Keys + set h | h in w.orphans :: w.index.geofences[h].key
  {
    var before := w.index.geofences;
    RestartBringsBack(w, answers, refused);
    hide Next, Legal;
    forall k | k in w.index.ids ensures exists h :: h in before && before[h].key == k {
      assert before[w.index.ids[k]].key == k;
    }
  }

  /** A command for a known geofence that the engine agrees to. */
  ghost predicate Accepted(w: World, m: Move) {
    (m.Pause? || m.Resume? || m.Modify?) && m.success && m.key in w.index.ids
  }

  /** The geofence as the client has asked for it. */
  ghost function Asked(fence: GeofenceObject, m: Move): GeofenceObject
    requires m.Pause? || m.Resume? || m.Modify?
  {
    match m
    case Pause(_, _) => fence.(paused := true)
    case Resume(_, _) => fence.(paused := false)
    case Modify(_, option, _) => fence.(option := option)
  }

  /**
   An accepted command changes the one geofence under its key, here and in the engine, and of
   that geofence only what the client asked for.
   */
  lemma CommandChangesOne(w: World, m: Move)
    requires Inv(w) && Legal(w, m) && Accepted(w, m)
    ensures var next, h := Next(w, m), w.index.ids[m.key];
            && h in w.index.geofences && h in w.engine
            && next.index.geofences == w.index.geofences[h := Asked(w.index.geofences[h], m)]
            && next.engine == w.engine[h := Asked(w.engine[h], m)]
            && next.index.ids == w.index.ids && next.orphans == w.orphans
  {
    assert w.index.ids[m.key] in w.index.geofences.Keys;
  }

  /** A geofence that comes back has what it had, in the engine all of it and here all but its pause. */
  lemma FenceIsBack(w: World, up: Move, h: nat)
    requires Inv(w) && up.EngineUp? && Legal(w, up) && h in w.index.geofences && up.answers[h].Added?
    ensures var next, n, fence := Next(w, up), up.answers[h].hwId, w.index.geofences[h];
            && n in next.index.geofences && next.index.geofences[n] == fence.(paused := false)
            && fence.key in next.index.ids && next.index.ids[fence.key] == n
            && n in next.engine
            && next.engine[n] == fence.(paused := fence.paused && n !in up.refused)
  {
    EngineUpIs(w, up.answers, up.refused);
    hide Next, Inv, Legal, Accepting, Distinct;
    assert IsBack(Next(w, up).index, Accepting(w, up.answers), w.index.geofences[h], up.answers[h].hwId);
  }

  /** So what a client modified comes back modified after the next restart. */
  lemma {:induction false} ModifiedComesBack(w: World, m: Move, up: Move)
    requires Inv(w) && m.Modify? && Accepted(w, m) && up.EngineUp? && LegalRun(w, [m, up])
    requires w.index.ids[m.key] in up.answers && up.answers[w.index.ids[m.key]].Added?
    ensures var last, n := Run(w, [m, up]), up.answers[w.index.ids[m.key]].hwId;
            && m.key in last.index.ids && last.index.ids[m.key] == n
            && n in last.index.geofences && last.index.geofences[n].option == m.option
            && n in last.engine && last.engine[n].option == m.option
  {
    var v := Next(w, m);
    assert [m, up][1..] == [up] && [up][1..] == [];
    CommandChangesOne(w, m);
    StepKeeps(w, m);
    assert w.index.geofences[w.index.ids[m.key]].key == m.key;
    assert Run(w, [m, up]) == Run(v, [up]) == Next(v, up);
    hide Next, Inv, Legal;
    FenceIsBack(v, up, w.index.ids[m.key]);
  }

  /** And the next restart asks for the pause of a paused geofence, but not of one since resumed. */
  lemma PauseIsAskedAgain(w: World, m: Move, answers: map<nat, Answer>)
    requires Inv(w) && Legal(w, m) && (m.Pause? || m.Resume?) && Accepted(w, m)
    requires w.index.geofences.Keys <= answers.Keys && Distinct(w.index.geofences.Keys, answers)
    requires w.index.ids[m.key] in w.index.geofences && answers[w.index.ids[m.key]].Added?
    ensures var v, n := Next(w, m), answers[w.index.ids[m.key]].hwId;
            && v.index.geofences.Keys == w.index.geofences.Keys
            && (n in PausesOf(v.index.geofences, v.index.geofences.Keys, answers) <==> m.Pause?)
            && forall g :: g in w.index.geofences && answers[g].Added? && answers[g].hwId != n ==>
                 (answers[g].hwId in PausesOf(v.index.geofences, v.index.geofences.Keys, answers)
                  <==> w.index.geofences[g].paused)
  {
    CommandChangesOne(w, m);
    hide Next, Inv, Legal;
  }

  // ----- what it does not ---------------------------------------------------------

  ghost predicate PauseMirrored(w: World) {
    forall h :: h in w.index.geofences && h in w.engine ==> w.index.geofences[h].paused == w.engine[h].paused
  }

  ghost function PausedIn(engine: map<nat, GeofenceObject>): set<nat> {
    set n | n in engine && engine[n].paused
  }

  lemma AcceptedPauses(x: Index, engine: map<nat, GeofenceObject>, before: map<nat, GeofenceObject>,
                       answers: map<nat, Answer>)
    requires before.Keys <= answers.Keys && CameBack(x, engine, before, before.Keys, answers)
    ensures PausedIn(engine) == PausesOf(before, before.Keys, answers)
  {
    forall n | n in engine
      ensures exists h :: h in before && answers[h] == Added(n) && IsBack(x, engine, before[h], n)
    {
      assert n in x.geofences.Keys;
      var h :| h in before && answers[h].Added? && answers[h].hwId == n;
      assert IsBack(x, engine, before[h], n);
    }
    forall h | h in before && answers[h].Added? && before[h].paused ensures answers[h].hwId in PausedIn(engine) {
      assert IsBack(x, engine, before[h], answers[h].hwId);
    }
  }

  lemma RefusedPauses(engine: map<nat, GeofenceObject>, refused: set<nat>)
    ensures PausedIn(Refuse(engine, refused)) == PausedIn(engine) - refused
  {
  }

  /**
   After a restart nothing is paused here, and in the engine exactly the geofences are that the
   restart asked it to pause and for which it did not refuse.
   */
  lemma RestartUnpauses(w: World, answers: map<nat, Answer>, refused: set<nat>)
    requires Inv(w) && Legal(w, EngineUp(answers, refused))
    ensures var next := Next(w, EngineUp(answers, refused));
            && (forall n :: n in next.index.geofences ==> !next.index.geofences[n].paused)
            && PausedIn(next.engine) == PausesOf(w.index.geofences, w.index.geofences.Keys, answers) - refused
  {
    var before, next, engine := w.index.geofences, Next(w, EngineUp(answers, refused)), Accepting(w, answers);
    EngineUpIs(w, answers, refused);
    hide Next, Inv, Legal, CameBack, Accepting, PausesOf;
    BackUnpaused(next.index, engine, before, answers);
    AcceptedPauses(next.index, engine, before, answers);
    RefusedPauses(engine, refused);
    hide PausedIn, Refuse;
  }

  /** A paused geofence comes back, and its pause is accepted. */
  ghost predicate PausesAgain(w: World, m: Move)
    requires Legal(w, m) && m.EngineUp?
  {
    exists h :: h in w.index.geofences && w.index.geofences[h].paused
                && m.answers[h].Added? && m.answers[h].hwId !in m.refused
  }

  /** A restart leaves the pauses in agreement with the engine exactly if no paused geofence comes back paused. */
  lemma RestartMirrorsIff(w: World, m: Move)
    requires Inv(w) && Legal(w, m) && m.EngineUp?
    ensures PauseMirrored(Next(w, m)) <==> !PausesAgain(w, m)
  {
    var next := Next(w, m);
    RestartUnpauses(w, m.answers, m.refused);
    EngineUpKeeps(w, m.answers, m.refused);
    assert next.index.geofences.Keys == next.engine.Keys;
    hide Next, Inv;
    assert PauseMirrored(next) <==> PausedIn(next.engine) == {};
    var asked := PausesOf(w.index.geofences, w.index.geofences.Keys, m.answers);
    assert asked - m.refused == {} <==> forall n :: n in asked ==> n in m.refused by {
      if asked - m.refused == {} {
        forall n | n in asked ensures n in m.refused { assert n !in asked - m.refused; }
      }
    }
    assert PausesAgain(w, m) <==> exists n :: n in asked && n !in m.refused by {
      if h :| h in w.index.geofences && w.index.geofences[h].paused
              && m.answers[h].Added? && m.answers[h].hwId !in m.refused {
        assert m.answers[h].hwId in asked;
      }
    }
  }

  lemma OtherMirrors(w: World, m: Move)
    requires Inv(w) && Legal(w, m) && PauseMirrored(w) && !m.EngineUp?
    ensures PauseMirrored(Next(w, m))
  {
  }

  ghost predicate LosesPause(w: World, m: Move)
    requires Legal(w, m)
  {
    m.EngineUp? && PausesAgain(w, m)
  }

  /** A step keeps the pauses in agreement exactly if it is not such a restart. */
  lemma StepMirrorsIff(w: World, m: Move)
    requires Inv(w) && Legal(w, m) && PauseMirrored(w)
    ensures PauseMirrored(Next(w, m)) <==> !LosesPause(w, m)
  {
    if m.EngineUp? {
      RestartMirrorsIff(w, m);
    } else {
      OtherMirrors(w, m);
    }
  }

  ghost predicate AlwaysMirrored(w: World, run: seq<Move>)
    requires LegalRun(w, run)
    decreases |run|
  {
    PauseMirrored(w) && (run != [] ==> AlwaysMirrored(Next(w, run[0]), run[1..]))
  }

  ghost predicate NeverLosesPause(w: World, run: seq<Move>)
    requires LegalRun(w, run)
    decreases |run|
  {
    run != [] ==> !LosesPause(w, run[0]) && NeverLosesPause(Next(w, run[0]), run[1..])
  }

  lemma MirroredNow(w: World, run: seq<Move>)
    requires LegalRun(w, run) && AlwaysMirrored(w, run)
    ensures PauseMirrored(w)
  {
  }

  /**
   Over whole runs: the pauses agree with the engine's in every state if and only if no restart
   ever brings a paused geofence back paused.
   */
  lemma {:induction false} PausesMirroredIff(w: World, run: seq<Move>)
    requires Inv(w) && LegalRun(w, run) && PauseMirrored(w)
    ensures AlwaysMirrored(w, run) <==> NeverLosesPause(w, run)
    decreases |run|
  {
    if run != [] {
      hide Next, Legal, Inv, LosesPause, PauseMirrored;
      StepMirrorsIff(w, run[0]);
      StepKeeps(w, run[0]);
      if PauseMirrored(Next(w, run[0])) {
        PausesMirroredIff(Next(w, run[0]), run[1..]);
      } else if AlwaysMirrored(w, run) {
        MirroredNow(Next(w, run[0]), run[1..]);
      }
    }
  }

  /** A pause survives at most one restart of the engine, and never two without a command between. */
  lemma SecondRestartResumes(w: World, first: Move, second: Move)
    requires Inv(w) && first.EngineUp? && second.EngineUp? && LegalRun(w, [first, second])
    ensures PausedIn(Run(w, [first, second]).engine) == {}
  {
    var once := Next(w, first);
    assert [first, second][1..] == [second] && [second][1..] == [];
    RestartUnpauses(w, first.answers, first.refused);
    StepKeeps(w, first);
    RestartUnpauses(once, second.answers, second.refused);
    assert Run(w, [first, second]) == Run(once, [second]) == Next(once, second);
    hide Next, Inv;
  }

  lemma AddedAlone(key: GeofenceKey, option: GeofenceOption, info: GeofenceInfo)
    ensures var add := Add(key, option, info, Added(1));
            && Inv(START) && Legal(START, add)
            && Next(START, add).index == Index(map[1 := GeofenceObject(key, option, info, false)], map[key := 1])
  {
  }

  lemma PausedAlone(w: World, fence: GeofenceObject)
    requires w.index == Index(map[1 := fence], map[fence.key := 1])
    ensures Legal(w, Pause(fence.key, true))
    ensures Next(w, Pause(fence.key, true)).index == Index(map[1 := fence.(paused := true)], map[fence.key := 1])
  {
  }

  lemma UpAlone(w: World, fence: GeofenceObject)
    requires w.index == Index(map[1 := fence], map[fence.key := 1]) && fence.paused
    ensures var up := EngineUp(map[1 := Added(1)], {}); Legal(w, up) && PausesAgain(w, up)
  {
    assert 1 in w.index.geofences;
  }

  lemma RunOf(w: World, first: Move, rest: seq<Move>)
    requires Legal(w, first) && LegalRun(Next(w, first), rest)
    ensures LegalRun(w, [first] + rest) && Run(w, [first] + rest) == Run(Next(w, first), rest)
  {
    assert ([first] + rest)[1..] == rest;
  }

  /** A geofence is added and paused, and the engine restarts: it is paused there and not here. */
  lemma PauseCanBeForgotten(key: GeofenceKey, option: GeofenceOption, info: GeofenceInfo) returns (run: seq<Move>)
    ensures run == [Add(key, option, info, Added(1)), Pause(key, true), EngineUp(map[1 := Added(1)], {})]
    ensures LegalRun(START, run) && !PauseMirrored(Run(START, run))
  {
    var add, pause, up := Add(key, option, info, Added(1)), Pause(key, true), EngineUp(map[1 := Added(1)], {});
    var fence := GeofenceObject(key, option, info, false);
    AddedAlone(key, option, info);
    hide Next, Legal, Inv, PausesAgain, PauseMirrored;
    var w := Next(START, add);
    PausedAlone(w, fence);
    var v := Next(w, pause);
    UpAlone(v, fence.(paused := true));
    StepKeeps(START, add);
    StepKeeps(w, pause);
    RestartMirrorsIff(v, up);
    RunOf(v, up, []);
    RunOf(w, pause, [up] + []);
    RunOf(START, add, [pause] + ([up] + []));
    run := [add] + ([pause] + ([up] + []));
  }

  // ----- breaches -----------------------------------------------------------------

  /**
   A breach reaches the owner of each geofence it lists, under the owner's id and as often as it
   is listed; and a client is told of its own geofences only.
   */
  lemma {:induction false} BreachReachesOwner(geofences: map<nat, GeofenceObject>, hwIds: seq<nat>, h: nat)
    requires DistinctKeys(geofences) && h in geofences
    ensures var key := geofences[h].key;
            multiset(BreachIds(geofences, hwIds, key.client))[key.id] == multiset(hwIds)[h]
  {
    if hwIds != [] {
      var g, key := hwIds[0], geofences[h].key;
      var rest := BreachIds(geofences, hwIds[1..], key.client);
      BreachReachesOwner(geofences, hwIds[1..], h);
      assert hwIds == [g] + hwIds[1..];
      if g in geofences && geofences[g].key.client == key.client {
        assert geofences[g].key == key <==> g == h;
        assert BreachIds(geofences, hwIds, key.client) == [geofences[g].key.id] + rest;
      } else {
        assert g != h;
        assert BreachIds(geofences, hwIds, key.client) == rest;
      }
    }
  }

  lemma {:induction false} BreachIsOwn(geofences: map<nat, GeofenceObject>, hwIds: seq<nat>, client: nat, id: nat)
    requires id in BreachIds(geofences, hwIds, client)
    ensures exists h :: h in geofences && h in hwIds && geofences[h].key == GeofenceKey(client, id)
  {
    if hwIds[0] in geofences && geofences[hwIds[0]].key == GeofenceKey(client, id) {
    } else {
      BreachIsOwn(geofences, hwIds[1..], client, id);
    }
  }

  /** And the ids are told in the order of the event. */
  lemma {:induction false} BreachInOrder(geofences: map<nat, GeofenceObject>, first: seq<nat>, rest: seq<nat>,
                                         client: nat)
    ensures BreachIds(geofences, first + rest, client)
            == BreachIds(geofences, first, client) + BreachIds(geofences, rest, client)
  {
    if first == [] {
      assert first + rest == rest;
    } else {
      assert (first + rest)[1..] == first[1..] + rest;
      BreachInOrder(geofences, first[1..], rest, client);
    }
  }
}
