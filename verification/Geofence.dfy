/**
 The geofence adapter's two-way index: `geofences` finds a geofence by the engine's id and
 `ids` finds the engine's id by the client's key.
 */
module Geofence {
  import opened Ordered
  import opened Wrappers

  datatype GeofenceKey = GeofenceKey(client: nat, id: nat)

  datatype GeofenceOption = GeofenceOption(breachTypeMask: nat, responsiveness: nat, dwellTime: nat)

  datatype GeofenceInfo = GeofenceInfo(latitude: real, longitude: real, radius: real)

  datatype GeofenceObject = GeofenceObject(key: GeofenceKey, option: GeofenceOption, info: GeofenceInfo, paused: bool)

  /** The engine's answer to an added geofence. */
  datatype Answer = Failed | Added(hwId: nat)

  datatype Index = Index(geofences: map<nat, GeofenceObject>, ids: map<GeofenceKey, nat>)

  const EMPTY := Index(map[], map[])

  // ----- what the utilities do to the index ---------------------------------------

  function Saved(x: Index, key: GeofenceKey, hwId: nat, option: GeofenceOption, info: GeofenceInfo): Index {
    Index(x.geofences[hwId := GeofenceObject(key, option, info, false)], x.ids[key := hwId])
  }

  function Erased(x: Index, hwId: nat): Index { x.(geofences := x.geofences - {hwId}) }

  function Removed(x: Index, hwId: nat): Index {
    if hwId in x.geofences && x.geofences[hwId].key in x.ids
    then Index(x.geofences - {hwId}, x.ids - {x.geofences[hwId].key})
    else x
  }

  function Paused(x: Index, hwId: nat, paused: bool): Index {
    if hwId in x.geofences then x.(geofences := x.geofences[hwId := x.geofences[hwId].(paused := paused)]) else x
  }

  function Modified(x: Index, hwId: nat, option: GeofenceOption): Index {
    if hwId in x.geofences then x.(geofences := x.geofences[hwId := x.geofences[hwId].(option := option)]) else x
  }

  function Stopped(x: Index, client: nat): Index {
    x.(ids := map k | k in x.ids && k.client != client :: x.ids[k])
  }

  function HwIdsOf(x: Index, client: nat): set<nat> {
    set k | k in x.ids && k.client == client :: x.ids[k]
  }

  function Readded(x: Index, fence: GeofenceObject, answer: Answer): Index {
    match answer
    case Failed => x
    case Added(hwId) => Saved(x, fence.key, hwId, fence.option, fence.info)
  }

  /** The index after the geofences `todo` of `before` were added to the engine again, in order. */
  ghost function ReaddedAll(x: Index, before: map<nat, GeofenceObject>, todo: set<nat>,
                            answers: map<nat, Answer>): Index
    requires todo <= before.Keys && todo <= answers.Keys
    decreases |todo|
  {
    if todo == {} then x else
      var h := MinOf(todo);
      ReaddedAll(Readded(x, before[h], answers[h]), before, todo - {h}, answers)
  }

  ghost function Restarted(x: Index, answers: map<nat, Answer>): Index
    requires x.geofences.Keys <= answers.Keys
  {
    if x.geofences == map[] then x
    else ReaddedAll(EMPTY, x.geofences, x.geofences.Keys, answers)
  }

  /** The geofences that came back and were asked to pause, by their new ids. */
  ghost function PausesOf(before: map<nat, GeofenceObject>, todo: set<nat>, answers: map<nat, Answer>): set<nat>
    requires todo <= before.Keys && todo <= answers.Keys
  {
    set h | h in todo && answers[h].Added? && before[h].paused :: answers[h].hwId
  }

  /** The ids of a breach event that belong to `client`, in the order of the event. */
  function BreachIds(geofences: map<nat, GeofenceObject>, hwIds: seq<nat>, client: nat): seq<nat> {
    if hwIds == [] then [] else
      (if hwIds[0] in geofences && geofences[hwIds[0]].key.client == client then [geofences[hwIds[0]].key.id] else [])
      + BreachIds(geofences, hwIds[1..], client)
  }

  // ----- the adapter --------------------------------------------------------------

  class GeofenceAdapter {
    var mGeofences: map<nat, GeofenceObject>
    var mGeofenceIds: map<GeofenceKey, nat>

    ghost function View(): Index
      reads this
    {
      Index(mGeofences, mGeofenceIds)
    }

    constructor ()
      ensures View() == EMPTY
    {
      mGeofences, mGeofenceIds := map[], map[];
    }

    method GetHwIdFromClient(client: nat, clientId: nat) returns (hwId: Option<nat>)
      ensures hwId.Some? <==> GeofenceKey(client, clientId) in mGeofenceIds
      ensures hwId.Some? ==> hwId.value == mGeofenceIds[GeofenceKey(client, clientId)]
    {
      var key := GeofenceKey(client, clientId);
      if key in mGeofenceIds {
        return Some(mGeofenceIds[key]);
      }
      return None;
    }

    method GetGeofenceKeyFromHwId(hwId: nat) returns (key: Option<GeofenceKey>)
      ensures key.Some? <==> hwId in mGeofences
      ensures key.Some? ==> key.value == mGeofences[hwId].key
    {
      if hwId in mGeofences {
        return Some(mGeofences[hwId].key);
      }
      return None;
    }

    method SaveGeofenceItem(key: GeofenceKey, hwId: nat, option: GeofenceOption, info: GeofenceInfo)
      modifies this
      ensures View() == Saved(old(View()), key, hwId, option, info)
    {
      mGeofences := mGeofences[hwId := GeofenceObject(key, option, info, false)];
      mGeofenceIds := mGeofenceIds[key := hwId];
    }

    /** A geofence whose key is no longer known stays where it is. */
    method RemoveGeofenceItem(hwId: nat)
      modifies this
      ensures View() == Removed(old(View()), hwId)
    {
      var key := GetGeofenceKeyFromHwId(hwId);
      if key.Some? {
        if key.value in mGeofenceIds {
          mGeofenceIds := mGeofenceIds - {key.value};
          if hwId in mGeofences {
            mGeofences := mGeofences - {hwId};
          }
        }
      }
    }

    method PauseGeofenceItem(hwId: nat)
      modifies this
      ensures View() == Paused(old(View()), hwId, true)
    {
      if hwId in mGeofences {
        mGeofences := mGeofences[hwId := mGeofences[hwId].(paused := true)];
      }
    }

    method ResumeGeofenceItem(hwId: nat)
      modifies this
      ensures View() == Paused(old(View()), hwId, false)
    {
      if hwId in mGeofences {
        mGeofences := mGeofences[hwId := mGeofences[hwId].(paused := false)];
      }
    }

    method ModifyGeofenceItem(hwId: nat, option: GeofenceOption)
      modifies this
      ensures View() == Modified(old(View()), hwId, option)
    {
      if hwId in mGeofences {
        mGeofences := mGeofences[hwId := mGeofences[hwId].(option := option)];
      }
    }

    /** The client's keys go at once; the engine is asked to remove its geofences. */
    method StopClientSessions(client: nat) returns (requests: set<nat>)
      modifies this
      ensures View() == Stopped(old(View()), client)
      ensures requests == HwIdsOf(old(View()), client)
    {
      requests := {};
      var todo := mGeofenceIds.Keys;
      while todo != {}
        invariant todo <= old(mGeofenceIds).Keys && mGeofences == old(mGeofences)
        invariant forall k :: k in mGeofenceIds <==>
          k in old(mGeofenceIds) && (k in todo || k.client != client)
        invariant forall k :: k in mGeofenceIds ==> mGeofenceIds[k] == old(mGeofenceIds)[k]
        invariant forall h :: h in requests <==>
          exists k :: k in old(mGeofenceIds).Keys - todo && k.client == client && old(mGeofenceIds)[k] == h
        decreases |todo|
      {
        var key :| key in todo;
        if client == key.client {
          requests := requests + {mGeofenceIds[key]};
          mGeofenceIds := mGeofenceIds - {key};
        }
        todo := todo - {key};
      }
    }

    /** The engine's answer to a removal that `StopClientSessions` asked for. */
    method StopAnswered(hwId: nat, success: bool)
      modifies this
      ensures View() == if success then Erased(old(View()), hwId) else old(View())
    {
      if success && hwId in mGeofences {
        mGeofences := mGeofences - {hwId};
      }
      assert !(hwId in old(mGeofences)) ==> old(mGeofences) - {hwId} == old(mGeofences);
    }

    /** The engine is back and has lost everything: each geofence is added again. */
    method RestartGeofences(answers: map<nat, Answer>) returns (pauses: set<nat>)
      requires mGeofences.Keys <= answers.Keys
      modifies this
      ensures View() == Restarted(old(View()), answers)
      ensures pauses == PausesOf(old(mGeofences), old(mGeofences).Keys, answers)
    {
      pauses := {};
      if |mGeofences| == 0 {
        assert mGeofences == map[];
        return;
      }
      var oldGeofences := mGeofences;
      mGeofences := map[];
      mGeofenceIds := map[];
      var todo := oldGeofences.Keys;
      while todo != {}
        invariant todo <= oldGeofences.Keys
        invariant ReaddedAll(View(), oldGeofences, todo, answers)
          == ReaddedAll(EMPTY, oldGeofences, oldGeofences.Keys, answers)
        invariant pauses == PausesOf(oldGeofences, oldGeofences.Keys - todo, answers)
        decreases |todo|
      {
        var h := MinOf(todo);
        var fence := oldGeofences[h];
        match answers[h] {
          case Failed =>
          case Added(hwId) =>
            if fence.paused {
              pauses := pauses + {hwId};
            }
            SaveGeofenceItem(fence.key, hwId, fence.option, fence.info);
        }
        todo := todo - {h};
      }
    }

    /** The ids of the event that belong to one client. */
    method ClientIdsOf(hwIds: seq<nat>, client: nat) returns (clientIds: seq<nat>)
      ensures clientIds == BreachIds(mGeofences, hwIds, client)
    {
      clientIds := [];
      var i := 0;
      while i < |hwIds|
        invariant 0 <= i <= |hwIds|
        invariant clientIds + BreachIds(mGeofences, hwIds[i..], client) == BreachIds(mGeofences, hwIds, client)
      {
        assert hwIds[i..][1..] == hwIds[i + 1..];
        var key := GetGeofenceKeyFromHwId(hwIds[i]);
        if key.Some? {
          if key.value.client == client {
            clientIds := clientIds + [key.value.id];
          }
        }
        i := i + 1;
      }
    }

    /** What each client that listens for breaches is told. */
    method GeofenceBreach(hwIds: seq<nat>, clients: map<nat, bool>) returns (told: map<nat, seq<nat>>)
      ensures forall c :: c in told <==> c in clients && clients[c] && BreachIds(mGeofences, hwIds, c) != []
      ensures forall c :: c in told ==> told[c] == BreachIds(mGeofences, hwIds, c)
    {
      hide BreachIds;
      told := map[];
      var todo := clients.Keys;
      while todo != {}
        invariant todo <= clients.Keys
        invariant forall c :: c in told <==>
          c in clients.Keys - todo && clients[c] && BreachIds(mGeofences, hwIds, c) != []
        invariant forall c :: c in told ==> told[c] == BreachIds(mGeofences, hwIds, c)
        decreases |todo|
      {
        var client :| client in todo;
        var clientIds := ClientIdsOf(hwIds, client);
        if |clientIds| > 0 && clients[client] {
          told := told[client := clientIds];
        }
        todo := todo - {client};
      }
    }
  }
}
