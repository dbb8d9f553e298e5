/**
 What the observer's two indexes and its framework subscriptions keep over whole runs.

 An update of a subscription breaks the inverse: the code takes the client off the items its
 old and new sets share, not off the ones it no longer wants.  So the indexes stay inverse
 exactly as long as only clients without subscriptions update.  Delivery needs less: every
 client must be listed for what it holds, which is so exactly as long as no update names an
 item its client already holds.
 */
module OsObserverRuns {
  import opened SetMaps
  import opened OsObserver
  import opened Wrappers

  // ----- the two indexes ----------------------------------------------------------

  ghost predicate Holds(o: Observer, c: Client, d: DataItemId) {
    d in Get(o.clientToItems, c)
  }

  ghost predicate Listed(o: Observer, c: Client, d: DataItemId) {
    c in Get(o.itemToClients, d)
  }

  ghost predicate Inverse(o: Observer) {
    forall c, d :: Holds(o, c, d) <==> Listed(o, c, d)
  }

  /** No entry of either index is the empty set. */
  ghost predicate NoEmptyEntry(o: Observer) {
    && (forall c :: c in o.clientToItems ==> o.clientToItems[c] != {})
    && (forall d :: d in o.itemToClients ==> o.itemToClients[d] != {})
  }

  lemma GetAdded<K, V>(m: map<K, set<V>>, keys: set<K>, vals: set<V>, k: K)
    ensures Get(Added(m, keys, vals), k) == Get(m, k) + if k in keys then vals else {}
  {
  }

  lemma GetTrimmed<K, V>(m: map<K, set<V>>, keys: set<K>, vals: set<V>, k: K)
    ensures Get(Trimmed(m, keys, vals), k) == Get(m, k) - if k in keys then vals else {}
  {
  }

  lemma GoneValsOfOne<K, V>(m: map<K, set<V>>, k: K, vals: set<V>)
    ensures GoneVals(m, {k}, vals) == Get(m, k) * vals
  {
  }

  // ----- what each message does to the pairs --------------------------------------

  lemma SubscribePairs(o: Observer, l: seq<DataItemId>, c: Client, toRequestData: bool, b: Client, d: DataItemId)
    requires l != [] && c != NullClient
    ensures var p := AfterSubscribe(o, l, c, toRequestData);
            && (Holds(p, b, d) <==> Holds(o, b, d) || (b == c && d in l))
            && (Listed(p, b, d) <==> Listed(o, b, d) || (b == c && d in l))
  {
    GetAdded(o.clientToItems, {c}, ToSet(l), b);
    GetAdded(o.itemToClients, ToSet(l), {c}, d);
  }

  lemma UnsubscribePairs(o: Observer, l: seq<DataItemId>, c: Client, b: Client, d: DataItemId)
    requires l != [] && c != NullClient
    ensures var p := AfterUnsubscribe(o, l, c);
            && (Holds(p, b, d) <==> Holds(o, b, d) && !(b == c && d in l))
            && (Listed(p, b, d) <==> Listed(o, b, d) && !(b == c && d in l && Holds(o, c, d)))
  {
    GoneValsOfOne(o.clientToItems, c, ToSet(l));
    GetTrimmed(o.clientToItems, {c}, ToSet(l), b);
    GetTrimmed(o.itemToClients, Get(o.clientToItems, c) * ToSet(l), {c}, d);
  }

  lemma UnsubscribeAllPairs(o: Observer, c: Client, b: Client, d: DataItemId)
    requires c != NullClient
    ensures var p := AfterUnsubscribeAll(o, c);
            && (Holds(p, b, d) <==> Holds(o, b, d) && b != c)
            && (Listed(p, b, d) <==> Listed(o, b, d) && !(b == c && Holds(o, c, d)))
  {
    GetTrimmed(o.itemToClients, Get(o.clientToItems, c), {c}, d);
  }

  /** An update replaces what the client holds, but takes it off the items that stay. */
  lemma UpdatePairs(o: Observer, l: seq<DataItemId>, c: Client, b: Client, d: DataItemId)
    requires l != [] && c != NullClient
    ensures var p := AfterUpdate(o, l, c);
            && (Holds(p, b, d) <==> if b == c then d in l else Holds(o, b, d))
            && (b != c ==> (Listed(p, b, d) <==> Listed(o, b, d)))
            && (Listed(p, c, d) <==> if d in l then !Holds(o, c, d) else Listed(o, c, d))
  {
    var ids, held := ToSet(l), Get(o.clientToItems, c);
    GetTrimmed(o.itemToClients, held * ids, {c}, d);
    GetAdded(Trimmed(o.itemToClients, held * ids, {c}), ids - held, {c}, d);
  }

  // ----- each message and the inverse ---------------------------------------------

  lemma SubscribeInverse(o: Observer, l: seq<DataItemId>, c: Client, toRequestData: bool)
    requires Inverse(o)
    ensures Inverse(AfterSubscribe(o, l, c, toRequestData))
  {
    if l != [] && c != NullClient {
      var p := AfterSubscribe(o, l, c, toRequestData);
      hide AfterSubscribe, Holds, Listed;
      forall b, d ensures Holds(p, b, d) <==> Listed(p, b, d) {
        SubscribePairs(o, l, c, toRequestData, b, d);
      }
    }
  }

  lemma UnsubscribeInverse(o: Observer, l: seq<DataItemId>, c: Client)
    requires Inverse(o)
    ensures Inverse(AfterUnsubscribe(o, l, c))
  {
    if l != [] && c != NullClient {
      var p := AfterUnsubscribe(o, l, c);
      hide AfterUnsubscribe, Holds, Listed;
      forall b, d ensures Holds(p, b, d) <==> Listed(p, b, d) {
        UnsubscribePairs(o, l, c, b, d);
      }
    }
  }

  lemma UnsubscribeAllInverse(o: Observer, c: Client)
    requires Inverse(o)
    ensures Inverse(AfterUnsubscribeAll(o, c))
  {
    if c != NullClient {
      var p := AfterUnsubscribeAll(o, c);
      hide AfterUnsubscribeAll, Holds, Listed;
      forall b, d ensures Holds(p, b, d) <==> Listed(p, b, d) {
        UnsubscribeAllPairs(o, c, b, d);
      }
    }
  }

  /**
   An update leaves the client with exactly the new items, but listed under exactly those that
   are in one of the two sets and not in both.
   */
  lemma UpdateLists(o: Observer, l: seq<DataItemId>, c: Client, b: Client, d: DataItemId)
    requires Inverse(o) && l != [] && c != NullClient
    ensures var p, ids, held := AfterUpdate(o, l, c), ToSet(l), Get(o.clientToItems, c);
            && (b != c ==> (Holds(p, b, d) <==> Holds(o, b, d)) && (Listed(p, b, d) <==> Listed(o, b, d)))
            && (Holds(p, c, d) <==> d in ids)
            && (Listed(p, c, d) <==> (d in ids) != (d in held))
  {
    UpdatePairs(o, l, c, b, d);
    UpdatePairs(o, l, c, c, d);
    assert Holds(o, c, d) <==> Listed(o, c, d);
  }

  /** An update keeps the indexes inverse exactly when the client had no subscription before. */
  lemma UpdateInverseIff(o: Observer, l: seq<DataItemId>, c: Client)
    requires Inverse(o) && l != [] && c != NullClient
    ensures Inverse(AfterUpdate(o, l, c)) <==> Get(o.clientToItems, c) == {}
  {
    var p, held := AfterUpdate(o, l, c), Get(o.clientToItems, c);
    forall b, d
      ensures (held == {} ==> (Holds(p, b, d) <==> Listed(p, b, d)))
      ensures b == c && d in held ==> !(Holds(p, b, d) <==> Listed(p, b, d))
    {
      UpdateLists(o, l, c, b, d);
    }
    if held != {} {
      var d :| d in held;
      assert !(Holds(p, c, d) <==> Listed(p, c, d));
    }
  }

  /** Taking the client off the items it no longer uses, as the comments say, always keeps them inverse. */
  lemma DocumentedUpdateInverse(o: Observer, l: seq<DataItemId>, c: Client)
    requires Inverse(o)
    ensures Inverse(AfterDocumentedUpdate(o, l, c))
  {
    if l != [] && c != NullClient {
      var p, ids, held := AfterDocumentedUpdate(o, l, c), ToSet(l), Get(o.clientToItems, c);
      forall b, d
        ensures Holds(p, b, d) <==> if b == c then d in ids else Holds(o, b, d)
        ensures Listed(p, b, d) <==> if b == c then d in ids else Holds(o, b, d)
      {
        GetTrimmed(o.itemToClients, held - ids, {c}, d);
        GetAdded(Trimmed(o.itemToClients, held - ids, {c}), ids - held, {c}, d);
        assert Holds(o, b, d) <==> Listed(o, b, d);
      }
    }
  }

  // ----- runs ---------------------------------------------------------------------

  datatype Message =
    | Subscribe(l: seq<DataItemId>, client: Client, toRequestData: bool)
    | Update(l: seq<DataItemId>, client: Client)
    | Unsubscribe(l: seq<DataItemId>, client: Client)
    | UnsubscribeAll(client: Client)
    | SetSubscriptionObj(obj: nat)
    | Notify(items: seq<DataItem>)

  ghost function Step(o: Observer, m: Message): Observer {
    match m
    case Subscribe(l, c, toRequestData) => AfterSubscribe(o, l, c, toRequestData)
    case Update(l, c) => AfterUpdate(o, l, c)
    case Unsubscribe(l, c) => AfterUnsubscribe(o, l, c)
    case UnsubscribeAll(c) => AfterUnsubscribeAll(o, c)
    case SetSubscriptionObj(obj) => AfterSetSubscriptionObj(o, obj)
    case Notify(items) => AfterNotify(o, items)
  }

  ghost function Run(ms: seq<Message>): Observer {
    if ms == [] then INITIAL_OBSERVER else Step(Run(ms[..|ms| - 1]), ms[|ms| - 1])
  }

  /** An update that does something, by a client that still holds items. */
  ghost predicate UpdatesHeld(o: Observer, m: Message) {
    m.Update? && m.l != [] && m.client != NullClient && Get(o.clientToItems, m.client) != {}
  }

  lemma StepInverseIff(o: Observer, m: Message)
    requires Inverse(o)
    ensures Inverse(Step(o, m)) <==> !UpdatesHeld(o, m)
  {
    match m
    case Subscribe(l, c, toRequestData) => SubscribeInverse(o, l, c, toRequestData);
    case Update(l, c) => if l != [] && c != NullClient { UpdateInverseIff(o, l, c); }
    case Unsubscribe(l, c) => UnsubscribeInverse(o, l, c);
    case UnsubscribeAll(c) => UnsubscribeAllInverse(o, c);
    case SetSubscriptionObj(obj) => assert forall c, d :: Holds(o, c, d) <==> Holds(Step(o, m), c, d);
    case Notify(items) => assert forall c, d :: Holds(o, c, d) <==> Holds(Step(o, m), c, d);
  }

  ghost predicate NoUpdateOfHeld(ms: seq<Message>) {
    forall i :: 0 <= i < |ms| ==> !UpdatesHeld(Run(ms[..i]), ms[i])
  }

  ghost predicate AlwaysInverse(ms: seq<Message>) {
    forall k :: 0 <= k <= |ms| ==> Inverse(Run(ms[..k]))
  }

  lemma RunPrefix(ms: seq<Message>, k: nat)
    requires k < |ms|
    ensures Run(ms[..k + 1]) == Step(Run(ms[..k]), ms[k])
  {
    assert ms[..k + 1][..k] == ms[..k];
  }

  lemma {:induction false} InverseUpTo(ms: seq<Message>, k: nat)
    requires k <= |ms| && NoUpdateOfHeld(ms)
    ensures Inverse(Run(ms[..k]))
  {
    if k > 0 {
      InverseUpTo(ms, k - 1);
      RunPrefix(ms, k - 1);
      StepInverseIff(Run(ms[..k - 1]), ms[k - 1]);
    }
  }

  /**
   Over whole runs: the two indexes are mutual inverses in every state exactly when no client
   that holds items ever updates its subscription.
   */
  lemma InverseRunsIff(ms: seq<Message>)
    ensures AlwaysInverse(ms) <==> NoUpdateOfHeld(ms)
  {
    if NoUpdateOfHeld(ms) {
      forall k | 0 <= k <= |ms| ensures Inverse(Run(ms[..k])) {
        InverseUpTo(ms, k);
      }
    }
    if AlwaysInverse(ms) {
      forall i | 0 <= i < |ms| ensures !UpdatesHeld(Run(ms[..i]), ms[i]) {
        assert Inverse(Run(ms[..i])) && Inverse(Run(ms[..i + 1]));
        RunPrefix(ms, i);
        StepInverseIff(Run(ms[..i]), ms[i]);
      }
    }
  }

  // ----- the framework's subscriptions --------------------------------------------

  ghost function NetAfter(before: set<DataItemId>, call: FrameworkCall, obj: nat): set<DataItemId> {
    if call.obj != obj then before
    else if call.FwSubscribe? then before + call.ids
    else if call.FwUnsubscribe? then before - call.ids
    else before
  }

  /** The net set of items an object is subscribed to, after all calls. */
  ghost function Net(calls: seq<FrameworkCall>, obj: nat): set<DataItemId> {
    if calls == [] then {} else NetAfter(Net(calls[..|calls| - 1], obj), calls[|calls| - 1], obj)
  }

  lemma NetNext(calls: seq<FrameworkCall>, call: FrameworkCall, obj: nat)
    ensures Net(calls + [call], obj) == NetAfter(Net(calls, obj), call, obj)
  {
    assert (calls + [call])[..|calls|] == calls;
  }

  lemma NetSubscribing(calls: seq<FrameworkCall>, obj: nat, ids: set<DataItemId>)
    ensures Net(calls + Subscribing(Some(obj), ids), obj) == Net(calls, obj) + ids
  {
    NetNext(calls, FwSubscribe(obj, ids), obj);
    assert calls + [] == calls && Net(calls, obj) + {} == Net(calls, obj);
  }

  lemma NetUnsubscribing(calls: seq<FrameworkCall>, obj: nat, ids: set<DataItemId>)
    ensures Net(calls + Unsubscribing(Some(obj), ids), obj) == Net(calls, obj) - ids
  {
    NetNext(calls, FwUnsubscribe(obj, ids), obj);
    assert calls + [] == calls && Net(calls, obj) - {} == Net(calls, obj);
  }

  ghost predicate Mentions(calls: seq<FrameworkCall>, obj: nat) {
    exists i :: 0 <= i < |calls| && calls[i].obj == obj
  }

  lemma {:induction false} NetOfUnused(calls: seq<FrameworkCall>, obj: nat)
    requires !Mentions(calls, obj)
    ensures Net(calls, obj) == {}
  {
    if calls != [] {
      var before := calls[..|calls| - 1];
      assert calls[|calls| - 1].obj != obj;
      forall i | 0 <= i < |before| ensures before[i].obj != obj {
        assert before[i] == calls[i];
      }
      NetOfUnused(before, obj);
    }
  }

  /** The framework is subscribed to nothing that no client wants. */
  ghost predicate Within(o: Observer) {
    o.subscriptionObj.Some? ==> Net(o.calls, o.subscriptionObj.value) <= o.itemToClients.Keys
  }

  /** The framework is subscribed to exactly what some client wants. */
  ghost predicate Exact(o: Observer) {
    o.subscriptionObj.Some? ==> Net(o.calls, o.subscriptionObj.value) == o.itemToClients.Keys
  }

  /** Some client is listed for the item. */
  ghost predicate Wanted(o: Observer, d: DataItemId) {
    exists c :: Listed(o, c, d)
  }

  /** A data request that reaches the framework in place of a subscription somebody needs. */
  ghost predicate RequestsNew(o: Observer, m: Message) {
    && m.Subscribe? && m.toRequestData && m.client != NullClient && o.subscriptionObj.Some?
    && exists d :: d in m.l && !Wanted(o, d)
  }

  /** An object is set again that is still subscribed to an item nobody is listed for. */
  ghost predicate LeavesOver(o: Observer, m: Message) {
    m.SetSubscriptionObj? && exists d :: d in Net(o.calls, m.obj) && !Wanted(o, d)
  }

  /** A new object never is, nor the current one. */
  lemma NewObjectFits(o: Observer, m: Message)
    requires m.SetSubscriptionObj? && (!Mentions(o.calls, m.obj) || (o.subscriptionObj == Some(m.obj) && Within(o)))
    requires forall d :: d in o.itemToClients <==> Wanted(o, d)
    ensures !LeavesOver(o, m)
  {
    hide Wanted, Net;
    if !Mentions(o.calls, m.obj) { NetOfUnused(o.calls, m.obj); }
  }

  lemma ReindexFramework(o: Observer, ids: set<DataItemId>, c: Client, off: set<DataItemId>, on: set<DataItemId>)
    requires off !! on
    ensures Within(o) ==> Within(AfterReindex(o, ids, c, off, on))
    ensures Exact(o) ==> Exact(AfterReindex(o, ids, c, off, on))
  {
    if o.subscriptionObj.Some? {
      var obj, keys := o.subscriptionObj.value, o.itemToClients.Keys;
      var trimmed, gone := Trimmed(o.itemToClients, off, {c}), GoneKeys(o.itemToClients, off, {c});
      assert trimmed.Keys == keys - gone;
      assert Added(trimmed, on, {c}).Keys == trimmed.Keys + on;
      NetSubscribing(o.calls, obj, on - trimmed.Keys);
      NetUnsubscribing(o.calls + Subscribing(Some(obj), on - trimmed.Keys), obj, gone);
    }
  }

  lemma TrimFramework(o: Observer, p: Observer, off: set<DataItemId>, c: Client)
    requires p.subscriptionObj == o.subscriptionObj
    requires p.itemToClients == Trimmed(o.itemToClients, off, {c})
    requires p.calls == o.calls + Unsubscribing(o.subscriptionObj, GoneKeys(o.itemToClients, off, {c}))
    ensures Within(o) ==> Within(p)
    ensures Exact(o) ==> Exact(p)
  {
    if o.subscriptionObj.Some? {
      assert p.itemToClients.Keys == o.itemToClients.Keys - GoneKeys(o.itemToClients, off, {c});
      NetUnsubscribing(o.calls, o.subscriptionObj.value, GoneKeys(o.itemToClients, off, {c}));
    }
  }

  lemma AddedKeys(m: map<DataItemId, set<Client>>, ids: set<DataItemId>, c: Client)
    ensures Added(m, ids, {c}).Keys == m.Keys + ids
  {
  }

  lemma SubscribeFramework(o: Observer, l: seq<DataItemId>, c: Client, toRequestData: bool)
    requires l != [] && c != NullClient && o.subscriptionObj.Some?
    ensures Within(o) ==> Within(AfterSubscribe(o, l, c, toRequestData))
    ensures Exact(o) ==> (Exact(AfterSubscribe(o, l, c, toRequestData)) <==>
                          (toRequestData ==> ToSet(l) <= o.itemToClients.Keys))
  {
    hide Net, Added, ToSet, Delivered, Cached;
    var obj, ids, keys := o.subscriptionObj.value, ToSet(l), o.itemToClients.Keys;
    AddedKeys(o.itemToClients, ids, c);
    assert keys == keys + ids <==> ids <= keys;
    if toRequestData {
      NetNext(o.calls, FwRequestData(obj, ids), obj);
    } else {
      NetSubscribing(o.calls, obj, ids - keys);
      assert keys + (ids - keys) == keys + ids;
    }
  }

  lemma SetObjFramework(o: Observer, obj: nat)
    ensures var p := AfterSetSubscriptionObj(o, obj);
            Within(p) == Exact(p) == (Net(o.calls, obj) <= o.itemToClients.Keys)
  {
    hide Net;
    var keys := o.itemToClients.Keys;
    if keys != {} {
      NetNext(o.calls, FwSubscribe(obj, keys), obj);
      NetNext(o.calls + [FwSubscribe(obj, keys)], FwRequestData(obj, keys), obj);
      assert o.calls + [FwSubscribe(obj, keys), FwRequestData(obj, keys)]
             == o.calls + [FwSubscribe(obj, keys)] + [FwRequestData(obj, keys)];
    } else {
      assert o.calls + [] == o.calls;
    }
    assert Net(o.calls, obj) + keys == keys <==> Net(o.calls, obj) <= keys;
  }

  lemma NoEmptyAdded<K, V>(m: map<K, set<V>>, keys: set<K>, vals: set<V>)
    requires forall k :: k in m ==> m[k] != {}
    ensures forall k :: k in Added(m, keys, vals) ==> Added(m, keys, vals)[k] != {}
  {
    forall k | k in Added(m, keys, vals) ensures Added(m, keys, vals)[k] != {} {
      var v :| v in if k in m then m[k] else vals;
      assert v in Added(m, keys, vals)[k];
    }
  }

  lemma NoEmptyTrimmed<K, V>(m: map<K, set<V>>, keys: set<K>, vals: set<V>)
    requires forall k :: k in m ==> m[k] != {}
    ensures forall k :: k in Trimmed(m, keys, vals) ==> Trimmed(m, keys, vals)[k] != {}
  {
    forall k | k in Trimmed(m, keys, vals) && k in keys ensures m[k] - vals != {} {
      NothingLeft(m[k], vals);
    }
  }

  lemma StepNoEmpty(o: Observer, m: Message)
    requires NoEmptyEntry(o)
    ensures NoEmptyEntry(Step(o, m))
  {
    hide Added, Trimmed;
    match m
    case Subscribe(l, c, _) =>
      NoEmptyAdded(o.clientToItems, {c}, ToSet(l));
      NoEmptyAdded(o.itemToClients, ToSet(l), {c});
    case Update(l, c) =>
      var ids, held := ToSet(l), Get(o.clientToItems, c);
      if l != [] { assert l[0] in ids; }
      NoEmptyTrimmed(o.itemToClients, held * ids, {c});
      NoEmptyAdded(Trimmed(o.itemToClients, held * ids, {c}), ids - held, {c});
    case Unsubscribe(l, c) =>
      NoEmptyTrimmed(o.clientToItems, {c}, ToSet(l));
      NoEmptyTrimmed(o.itemToClients, GoneVals(o.clientToItems, {c}, ToSet(l)), {c});
    case UnsubscribeAll(c) =>
      NoEmptyTrimmed(o.itemToClients, Get(o.clientToItems, c), {c});
    case SetSubscriptionObj(_) =>
    case Notify(_) =>
  }

  /** No entry of either index is ever empty, so the keys of the index are the wanted items. */
  lemma {:induction false} RunNoEmpty(ms: seq<Message>)
    ensures NoEmptyEntry(Run(ms))
    ensures forall d :: d in Run(ms).itemToClients <==> Wanted(Run(ms), d)
  {
    if ms != [] {
      RunNoEmpty(ms[..|ms| - 1]);
      hide Step;
      StepNoEmpty(Run(ms[..|ms| - 1]), ms[|ms| - 1]);
    }
    var o := Run(ms);
    hide Run;
    forall d ensures d in o.itemToClients <==> Wanted(o, d) {
      if d in o.itemToClients {
        var c :| c in o.itemToClients[d];
        assert Listed(o, c, d);
      }
    }
  }

  lemma StepFramework(o: Observer, m: Message)
    requires forall d :: d in o.itemToClients <==> Wanted(o, d)
    ensures Within(o) || m.SetSubscriptionObj? ==> (Within(Step(o, m)) <==> !LeavesOver(o, m))
    ensures Exact(o) || m.SetSubscriptionObj? ==> (Exact(Step(o, m)) <==> !LeavesOver(o, m) && !RequestsNew(o, m))
  {
    hide Net, Wanted;
    match m
    case Subscribe(l, c, toRequestData) =>
      if l != [] && c != NullClient && o.subscriptionObj.Some? {
        SubscribeFramework(o, l, c, toRequestData);
      }
      assert ToSet(l) <= o.itemToClients.Keys <==> forall d :: d in l ==> d in o.itemToClients;
    case Update(l, c) =>
      var ids, held := ToSet(l), Get(o.clientToItems, c);
      ReindexFramework(o, ids, c, held * ids, ids - held);
    case Unsubscribe(l, c) =>
      if l != [] && c != NullClient {
        TrimFramework(o, Step(o, m), GoneVals(o.clientToItems, {c}, ToSet(l)), c);
      }
    case UnsubscribeAll(c) =>
      if c != NullClient && Get(o.clientToItems, c) != {} {
        TrimFramework(o, Step(o, m), Get(o.clientToItems, c), c);
      }
    case SetSubscriptionObj(obj) =>
      SetObjFramework(o, obj);
      assert Net(o.calls, obj) <= o.itemToClients.Keys <==>
             forall d :: d in Net(o.calls, obj) ==> d in o.itemToClients;
    case Notify(items) =>
  }

  ghost predicate NeverLeavesOver(ms: seq<Message>) {
    forall i :: 0 <= i < |ms| ==> !LeavesOver(Run(ms[..i]), ms[i])
  }

  ghost predicate NoNewRequests(ms: seq<Message>) {
    forall i :: 0 <= i < |ms| ==> !RequestsNew(Run(ms[..i]), ms[i])
  }

  lemma {:induction false} FrameworkUpTo(ms: seq<Message>, k: nat)
    requires k <= |ms| && NeverLeavesOver(ms)
    ensures Within(Run(ms[..k]))
    ensures NoNewRequests(ms) ==> Exact(Run(ms[..k]))
  {
    if k > 0 {
      FrameworkUpTo(ms, k - 1);
      RunPrefix(ms, k - 1);
      RunNoEmpty(ms[..k - 1]);
      hide Run, Step;
      StepFramework(Run(ms[..k - 1]), ms[k - 1]);
    }
  }

  /** The object's net subscriptions are within the items somebody is listed for. */
  ghost predicate SubscribesWanted(o: Observer) {
    o.subscriptionObj.Some? ==> forall d :: d in Net(o.calls, o.subscriptionObj.value) ==> Wanted(o, d)
  }

  /** And they are all of them. */
  ghost predicate SubscribesAllWanted(o: Observer) {
    o.subscriptionObj.Some? ==> forall d :: d in Net(o.calls, o.subscriptionObj.value) <==> Wanted(o, d)
  }

  lemma ByWhoIsListed(o: Observer)
    requires forall d :: d in o.itemToClients <==> Wanted(o, d)
    ensures Within(o) <==> SubscribesWanted(o)
    ensures Exact(o) <==> SubscribesAllWanted(o)
  {
  }

  /**
   In every state of a run, once a subscription object is set, it is subscribed to nothing that
   nobody is listed for, if and only if no object is ever set again that is left over with such an
   item; and it is subscribed to exactly the items somebody is listed for if and only if, besides,
   no data request ever takes the place of a subscription somebody needs.  Neither needs the
   indexes to be inverse.
   */
  lemma {:induction false} FrameworkFollowsIndex(ms: seq<Message>)
    ensures (forall k :: 0 <= k <= |ms| ==> SubscribesWanted(Run(ms[..k]))) <==> NeverLeavesOver(ms)
    ensures (forall k :: 0 <= k <= |ms| ==> SubscribesAllWanted(Run(ms[..k])))
            <==> NeverLeavesOver(ms) && NoNewRequests(ms)
  {
    hide Run, Step, Within, Exact, SubscribesWanted, SubscribesAllWanted, Wanted, RequestsNew, LeavesOver;
    forall k | 0 <= k <= |ms|
      ensures SubscribesWanted(Run(ms[..k])) <==> Within(Run(ms[..k]))
      ensures SubscribesAllWanted(Run(ms[..k])) <==> Exact(Run(ms[..k]))
      ensures NeverLeavesOver(ms) ==> Within(Run(ms[..k]))
      ensures NeverLeavesOver(ms) && NoNewRequests(ms) ==> Exact(Run(ms[..k]))
    {
      if NeverLeavesOver(ms) { FrameworkUpTo(ms, k); }
      RunNoEmpty(ms[..k]);
      ByWhoIsListed(Run(ms[..k]));
    }
    forall i | 0 <= i < |ms|
      ensures Within(Run(ms[..i])) && Within(Run(ms[..i + 1])) ==> !LeavesOver(Run(ms[..i]), ms[i])
      ensures Exact(Run(ms[..i])) && Exact(Run(ms[..i + 1])) ==>
                !LeavesOver(Run(ms[..i]), ms[i]) && !RequestsNew(Run(ms[..i]), ms[i])
    {
      RunPrefix(ms, i);
      RunNoEmpty(ms[..i]);
      StepFramework(Run(ms[..i]), ms[i]);
    }
    if forall k :: 0 <= k <= |ms| ==> SubscribesWanted(Run(ms[..k])) {
      forall i | 0 <= i < |ms| ensures !LeavesOver(Run(ms[..i]), ms[i]) {
        assert SubscribesWanted(Run(ms[..i])) && SubscribesWanted(Run(ms[..i + 1]));
      }
    }
    if forall k :: 0 <= k <= |ms| ==> SubscribesAllWanted(Run(ms[..k])) {
      forall i | 0 <= i < |ms| ensures !LeavesOver(Run(ms[..i]), ms[i]) && !RequestsNew(Run(ms[..i]), ms[i]) {
        assert SubscribesAllWanted(Run(ms[..i])) && SubscribesAllWanted(Run(ms[..i + 1]));
      }
    }
  }

  // ----- what the framework is asked for ------------------------------------------

  /** The items an object was asked to send the data of. */
  ghost function Requests(calls: seq<FrameworkCall>, obj: nat): set<DataItemId> {
    if calls == [] then {} else
      var before, call := Requests(calls[..|calls| - 1], obj), calls[|calls| - 1];
      if call.FwRequestData? && call.obj == obj then before + call.ids else before
  }

  lemma RequestsNext(calls: seq<FrameworkCall>, call: FrameworkCall, obj: nat)
    ensures Requests(calls + [call], obj)
            == Requests(calls, obj) + if call.FwRequestData? && call.obj == obj then call.ids else {}
  {
    assert (calls + [call])[..|calls|] == calls;
  }

  lemma NoRequests(calls: seq<FrameworkCall>, o: Option<nat>, ids: set<DataItemId>, obj: nat)
    ensures Requests(calls + Subscribing(o, ids), obj) == Requests(calls, obj)
    ensures Requests(calls + Unsubscribing(o, ids), obj) == Requests(calls, obj)
  {
    if o.Some? {
      RequestsNext(calls, FwSubscribe(o.value, ids), obj);
      RequestsNext(calls, FwUnsubscribe(o.value, ids), obj);
    }
    assert calls + [] == calls;
  }

  /** An object is asked for what a subscription requests, and when it is set for all that is wanted. */
  lemma StepRequests(o: Observer, m: Message, obj: nat)
    ensures var before, after := Requests(o.calls, obj), Requests(Step(o, m).calls, obj);
            after == if m.Subscribe? && m.l != [] && m.client != NullClient && m.toRequestData
                        && o.subscriptionObj == Some(obj)
                     then before + ToSet(m.l)
                     else if m.SetSubscriptionObj? && m.obj == obj then before + o.itemToClients.Keys
                     else before
  {
    hide Requests, Added, Trimmed, GoneKeys, GoneVals, Subscribing, Unsubscribing, AfterNotify, Send;
    match m
    case Subscribe(l, c, toRequestData) => SubscribeRequests(o, l, c, toRequestData, obj);
    case Update(l, c) => ReindexRequests(o, l, c, obj);
    case Unsubscribe(l, c) =>
      NoRequests(o.calls, o.subscriptionObj,
                 GoneKeys(o.itemToClients, GoneVals(o.clientToItems, {c}, ToSet(l)), {c}), obj);
    case UnsubscribeAll(c) =>
      NoRequests(o.calls, o.subscriptionObj, GoneKeys(o.itemToClients, Get(o.clientToItems, c), {c}), obj);
    case SetSubscriptionObj(new_) =>
      var keys := o.itemToClients.Keys;
      RequestsNext(o.calls, FwSubscribe(new_, keys), obj);
      RequestsNext(o.calls + [FwSubscribe(new_, keys)], FwRequestData(new_, keys), obj);
      assert o.calls + [FwSubscribe(new_, keys), FwRequestData(new_, keys)]
             == o.calls + [FwSubscribe(new_, keys)] + [FwRequestData(new_, keys)];
      assert o.calls + [] == o.calls;
    case Notify(items) => NotifyCalls(o, items);
  }

  lemma SubscribeRequests(o: Observer, l: seq<DataItemId>, c: Client, toRequestData: bool, obj: nat)
    ensures var before, after := Requests(o.calls, obj), Requests(AfterSubscribe(o, l, c, toRequestData).calls, obj);
            after == if l != [] && c != NullClient && toRequestData && o.subscriptionObj == Some(obj)
                     then before + ToSet(l) else before
  {
    hide Requests, Added, Subscribing, Delivered, Cached, ToSet;
    if o.subscriptionObj.Some? { RequestsNext(o.calls, FwRequestData(o.subscriptionObj.value, ToSet(l)), obj); }
    NoRequests(o.calls, o.subscriptionObj, ToSet(l) - o.itemToClients.Keys, obj);
    assert o.calls + [] == o.calls;
  }

  lemma NotifyCalls(o: Observer, items: seq<DataItem>)
    ensures AfterNotify(o, items).calls == o.calls
  {
  }

  lemma ReindexRequests(o: Observer, l: seq<DataItemId>, c: Client, obj: nat)
    ensures Requests(AfterUpdate(o, l, c).calls, obj) == Requests(o.calls, obj)
  {
    hide Requests, Added, Trimmed, GoneKeys, Subscribing, Unsubscribing;
    var ids, held := ToSet(l), Get(o.clientToItems, c);
    var gone := GoneKeys(o.itemToClients, held * ids, {c});
    var added := ids - held - Trimmed(o.itemToClients, held * ids, {c}).Keys;
    NoRequests(o.calls, o.subscriptionObj, added, obj);
    NoRequests(o.calls + Subscribing(o.subscriptionObj, added), o.subscriptionObj, gone, obj);
  }

  // ----- delivery -----------------------------------------------------------------

  /** Recording needs SystemStatus to agree, and a new item the factory to make it. */
  predicate Records(known: bool, item: DataItem, d: DataItemId) {
    item.Item? && item.id == d && item.accepted && (known || item.creatable)
  }

  /** The values of item `d` that are recorded when the items arrive, in order. */
  ghost function Recorded(known: bool, items: seq<DataItem>, d: DataItemId): seq<Value>
    decreases items
  {
    if items == [] then []
    else if Records(known, items[0], d) then [items[0].value] + Recorded(true, items[1..], d)
    else Recorded(known, items[1..], d)
  }

  function Entry(cache: Items, d: DataItemId): Option<Value> {
    if d in cache then Some(cache[d]) else None
  }

  /** What is known of an item when `i` of the values have arrived. */
  ghost function ValueAfter(before: Option<Value>, values: seq<Value>, i: nat): Option<Value>
    requires i <= |values|
  {
    if i == 0 then before else Some(values[i - 1])
  }

  /** One of the values differs from what was known before it. */
  ghost predicate Differs(before: Option<Value>, values: seq<Value>) {
    exists i :: 0 <= i < |values| && Some(values[i]) != ValueAfter(before, values, i)
  }

  lemma DiffersNext(before: Option<Value>, v: Value, rest: seq<Value>)
    ensures Differs(before, [v] + rest) <==> Some(v) != before || Differs(Some(v), rest)
    ensures ValueAfter(before, [v] + rest, 1 + |rest|) == ValueAfter(Some(v), rest, |rest|)
  {
    var values := [v] + rest;
    assert forall i :: 0 < i < |values| ==> values[i] == rest[i - 1];
    forall i | 0 <= i < |rest| ensures ValueAfter(before, values, i + 1) == ValueAfter(Some(v), rest, i) {}
    if Some(v) != before {
      assert Some(values[0]) != ValueAfter(before, values, 0);
    }
    if Differs(Some(v), rest) {
      var i :| 0 <= i < |rest| && Some(rest[i]) != ValueAfter(Some(v), rest, i);
      assert Some(values[i + 1]) != ValueAfter(before, values, i + 1);
    }
    if Differs(before, values) {
      var i :| 0 <= i < |values| && Some(values[i]) != ValueAfter(before, values, i);
      if i > 0 {
        assert Some(rest[i - 1]) != ValueAfter(Some(v), rest, i - 1);
      }
    }
  }

  lemma UpdateIs(cache: Items, item: DataItem, d: DataItemId)
    ensures var (next, updated) := UpdateCache(cache, item);
            var records := Records(d in cache, item, d);
            && Entry(next, d) == (if records then Some(item.value) else Entry(cache, d))
            && (d in next <==> d in cache || records)
            && (updated ==> item.Item?)
            && (updated && item.id == d <==> records && Some(item.value) != Entry(cache, d))
  {
  }

  /**
   After the items have arrived an entry is the last value recorded for it, or what it was if
   there is none; and it counts as changed if one of those values differed from the one before.
   */
  lemma {:induction false} UpdateAllIs(cache: Items, changed: set<DataItemId>, items: seq<DataItem>, d: DataItemId)
    ensures var (after, ids) := UpdateAll(cache, changed, items);
            var values := Recorded(d in cache, items, d);
            && Entry(after, d) == ValueAfter(Entry(cache, d), values, |values|)
            && (d in ids <==> d in changed || Differs(Entry(cache, d), values))
    decreases items
  {
    if items == [] {
    } else {
      UpdateIs(cache, items[0], d);
      var (next, updated) := UpdateCache(cache, items[0]);
      if Records(d in cache, items[0], d) {
        DiffersNext(Entry(cache, d), items[0].value, Recorded(true, items[1..], d));
      }
      hide Differs, ValueAfter, Entry, UpdateCache, Records;
      UpdateAllIs(next, if updated then changed + {items[0].id} else changed, items[1..], d);
    }
  }

  /** The changed ids of a notification. */
  ghost function Changed(o: Observer, items: seq<DataItem>): set<DataItemId> {
    UpdateAll(o.cache, {}, items).1
  }

  /** The values recorded for an item when the items arrive. */
  ghost function Arrived(o: Observer, items: seq<DataItem>, d: DataItemId): seq<Value> {
    Recorded(d in o.cache, items, d)
  }

  ghost predicate Changes(o: Observer, items: seq<DataItem>, d: DataItemId) {
    Differs(Entry(o.cache, d), Arrived(o, items, d))
  }

  /**
   What a client should be told: the last value that arrived for each of its items of which one
   differed from the value before, if there are any.
   */
  ghost function Due(o: Observer, items: seq<DataItem>, c: Client): seq<Items> {
    var wanted := set d | d in Get(o.clientToItems, c) && Changes(o, items, d);
    if c == NullClient || wanted == {} then [] else
      [map d | d in wanted :: Arrived(o, items, d)[|Arrived(o, items, d)| - 1]]
  }

  /** The adapter's changed ids and its cache say the same. */
  lemma ChangedIs(o: Observer, items: seq<DataItem>, d: DataItemId)
    ensures d in Changed(o, items) <==> Changes(o, items, d)
    ensures var values := Arrived(o, items, d);
            && (values != [] ==> d in AfterNotify(o, items).cache
                                 && AfterNotify(o, items).cache[d] == values[|values| - 1])
            && (values == [] ==> Entry(AfterNotify(o, items).cache, d) == Entry(o.cache, d))
  {
    UpdateAllIs(o.cache, {}, items, d);
    hide UpdateAll, Recorded, Differs;
  }

  lemma InboxAfter(o: Observer, changed: set<DataItemId>, to: set<Client>, c: Client)
    ensures Inbox(DeliverAll(o, changed, to), c) == Inbox(o.inbox, c) + Notice(o, changed, to, c)
  {
    assert c !in to ==> Notice(o, changed, to, c) == [];
    assert Inbox(o.inbox, c) + [] == Inbox(o.inbox, c);
    hide Notice;
  }

  lemma DueOf(o: Observer, items: seq<DataItem>, c: Client)
    ensures var wanted := Get(o.clientToItems, c) * Changed(o, items);
            Due(o, items, c) == if c == NullClient || wanted == {} then []
                                else [Cached(AfterNotify(o, items).cache, wanted)]
  {
    hide AfterNotify, Changed, Changes, Arrived;
    var wanted := Get(o.clientToItems, c) * Changed(o, items);
    forall d ensures d in Changed(o, items) <==> Changes(o, items, d) {
      ChangedIs(o, items, d);
    }
    assert wanted == set d | d in Get(o.clientToItems, c) && Changes(o, items, d);
    forall d | d in wanted
      ensures Arrived(o, items, d) != [] && d in AfterNotify(o, items).cache
              && AfterNotify(o, items).cache[d] == Arrived(o, items, d)[|Arrived(o, items, d)| - 1]
    {
      ChangedIs(o, items, d);
      ChangesArrived(o, items, d);
    }
    if c != NullClient && wanted != {} {
      assert |Due(o, items, c)| == 1 && Due(o, items, c)[0].Keys == wanted;
      assert Due(o, items, c)[0] == Cached(AfterNotify(o, items).cache, wanted);
    }
  }

  lemma ChangesArrived(o: Observer, items: seq<DataItem>, d: DataItemId)
    requires Changes(o, items, d)
    ensures Arrived(o, items, d) != []
  {
  }

  /** A client is told what is due exactly if it is listed for one of the changed items. */
  lemma DeliveryOf(o: Observer, items: seq<DataItem>, c: Client)
    ensures var told := c in Interested(o.itemToClients, Changed(o, items));
            && (told ==> Inbox(AfterNotify(o, items).inbox, c) == Inbox(o.inbox, c) + Due(o, items, c))
            && (!told ==> Inbox(AfterNotify(o, items).inbox, c) == Inbox(o.inbox, c))
  {
    DueOf(o, items, c);
    var (after, changed) := UpdateAll(o.cache, {}, items);
    var p, to := o.(cache := after), Interested(o.itemToClients, changed);
    var wanted := Get(o.clientToItems, c) * changed;
    InboxAfter(p, changed, to, c);
    assert AfterNotify(o, items).inbox == DeliverAll(p, changed, to) && AfterNotify(o, items).cache == after;
    if wanted != {} {
      var d :| d in wanted;
      ChangedIs(o, items, d);
      ChangesArrived(o, items, d);
      assert d in Cached(after, wanted);
    }
    hide AfterNotify, DeliverAll, Interested, Inbox, UpdateAll, Get, Due, Arrived, Changes;
    assert Inbox(o.inbox, c) + [] == Inbox(o.inbox, c);
  }

  /** What is due is one message with exactly the client's items that changed, if there are any. */
  lemma DueIs(o: Observer, items: seq<DataItem>, c: Client)
    ensures |Due(o, items, c)| == 1 <==> c != NullClient && Get(o.clientToItems, c) * Changed(o, items) != {}
    ensures |Due(o, items, c)| == 1 ==>
              && Due(o, items, c)[0].Keys == Get(o.clientToItems, c) * Changed(o, items)
              && forall d :: d in Due(o, items, c)[0] ==>
                   d in AfterNotify(o, items).cache && Due(o, items, c)[0][d] == AfterNotify(o, items).cache[d]
  {
    DueOf(o, items, c);
    hide Due, AfterNotify, Changed;
    var wanted := Get(o.clientToItems, c) * Changed(o, items);
    forall d | d in wanted ensures d in AfterNotify(o, items).cache {
      ChangedIs(o, items, d);
      ChangesArrived(o, items, d);
    }
    assert Cached(AfterNotify(o, items).cache, wanted).Keys == wanted;
  }

  ghost predicate DeliveredExactly(o: Observer, items: seq<DataItem>, c: Client) {
    Inbox(AfterNotify(o, items).inbox, c) == Inbox(o.inbox, c) + Due(o, items, c)
  }

  ghost predicate DeliversExactly(o: Observer) {
    forall items, c :: DeliveredExactly(o, items, c)
  }

  /** Every client is listed for the items it holds. */
  ghost predicate Covered(o: Observer) {
    forall c, d :: Holds(o, c, d) ==> Listed(o, c, d)
  }

  lemma CoveredDelivers(o: Observer, items: seq<DataItem>, c: Client)
    requires Covered(o)
    ensures DeliveredExactly(o, items, c)
  {
    DeliveryOf(o, items, c);
    DueOf(o, items, c);
    hide AfterNotify, Changed, Inbox, Due;
    if c !in Interested(o.itemToClients, Changed(o, items)) {
      forall d | d in Get(o.clientToItems, c) ensures d !in Changed(o, items) {
        assert Holds(o, c, d) && Listed(o, c, d);
      }
      assert Get(o.clientToItems, c) * Changed(o, items) == {};
    }
  }

  /** A client that is not listed for an item it holds is not told of its changes. */
  lemma MissedChange(o: Observer, c: Client, d: DataItemId) returns (items: seq<DataItem>)
    requires Holds(o, c, d) && !Listed(o, c, d)
    ensures Changed(o, items) == {d}
    ensures Inbox(AfterNotify(o, items).inbox, c) == Inbox(o.inbox, c)
  {
    items := [Item(d, if d in o.cache then o.cache[d] + 1 else 0, true, true)];
    var (next, updated) := UpdateCache(o.cache, items[0]);
    assert updated && items[1..] == [];
    var none: set<DataItemId> := {};
    assert none + {d} == {d};
    assert UpdateAll(o.cache, {}, items) == (next, {d});
    DeliveryOf(o, items, c);
  }

  /** A state delivers every change to everybody exactly if each client is listed for what it holds. */
  lemma DeliversIff(o: Observer)
    requires Get(o.clientToItems, NullClient) == {}
    ensures DeliversExactly(o) <==> Covered(o)
  {
    hide DeliveredExactly, Changed, Inbox, Due;
    if Covered(o) {
      forall items, c ensures DeliveredExactly(o, items, c) {
        CoveredDelivers(o, items, c);
      }
    } else {
      var c, d :| Holds(o, c, d) && !Listed(o, c, d);
      var items := MissedChange(o, c, d);
      DueIs(o, items, c);
      assert d in Get(o.clientToItems, c) * Changed(o, items);
      MissedIsInexact(o, items, c);
    }
  }

  lemma MissedIsInexact(o: Observer, items: seq<DataItem>, c: Client)
    requires Inbox(AfterNotify(o, items).inbox, c) == Inbox(o.inbox, c) && |Due(o, items, c)| == 1
    ensures !DeliveredExactly(o, items, c)
  {
    hide Due, AfterNotify, Inbox;
    assert |Inbox(o.inbox, c) + Due(o, items, c)| == |Inbox(o.inbox, c)| + 1;
  }

  /** An update that names an item its client already holds. */
  ghost predicate UpdatesShared(o: Observer, m: Message) {
    m.Update? && m.client != NullClient && exists d :: d in m.l && Holds(o, m.client, d)
  }

  /** Every message keeps each client listed for what it holds, but for exactly such an update. */
  lemma StepCoveredIff(o: Observer, m: Message)
    requires Covered(o)
    ensures Covered(Step(o, m)) <==> !UpdatesShared(o, m)
  {
    var p := Step(o, m);
    var idle := !m.SetSubscriptionObj? && !m.Notify?
                && (m.client == NullClient || (!m.UnsubscribeAll? && m.l == []));
    if m.SetSubscriptionObj? || m.Notify? || idle {
      assert forall c, d :: (Holds(o, c, d) <==> Holds(p, c, d)) && (Listed(o, c, d) <==> Listed(p, c, d));
    } else {
      hide Step, Holds, Listed, UpdatesShared;
      forall b, d
        ensures Holds(p, b, d) && !Listed(p, b, d) <==> m.Update? && b == m.client && d in m.l && Holds(o, b, d)
      {
        StepPair(o, m, b, d);
      }
      SharedIff(o, m, p);
    }
  }

  lemma StepPair(o: Observer, m: Message, b: Client, d: DataItemId)
    requires Covered(o) && !m.SetSubscriptionObj? && !m.Notify?
    requires m.client != NullClient && (m.UnsubscribeAll? || m.l != [])
    ensures var p := Step(o, m);
            Holds(p, b, d) && !Listed(p, b, d) <==> m.Update? && b == m.client && d in m.l && Holds(o, b, d)
  {
    hide Holds, Listed, AfterSubscribe, AfterUpdate, AfterUnsubscribe, AfterUnsubscribeAll;
    match m
    case Subscribe(l, c, toRequestData) => SubscribePairs(o, l, c, toRequestData, b, d);
    case Update(l, c) => UpdatePairs(o, l, c, b, d);
    case Unsubscribe(l, c) => UnsubscribePairs(o, l, c, b, d);
    case UnsubscribeAll(c) => UnsubscribeAllPairs(o, c, b, d);
  }

  lemma SharedIff(o: Observer, m: Message, p: Observer)
    requires !m.SetSubscriptionObj? && !m.Notify? && m.client != NullClient
    requires forall b, d :: Holds(p, b, d) && !Listed(p, b, d) <==>
                              m.Update? && b == m.client && d in m.l && Holds(o, b, d)
    ensures Covered(p) <==> !UpdatesShared(o, m)
  {
    hide Holds, Listed;
    if UpdatesShared(o, m) {
      var d :| d in m.l && Holds(o, m.client, d);
      assert Holds(p, m.client, d) && !Listed(p, m.client, d);
    }
  }

  lemma NullStays(o: Observer, m: Message)
    requires Get(o.clientToItems, NullClient) == {}
    ensures Get(Step(o, m).clientToItems, NullClient) == {}
  {
    hide AfterNotify, AfterReindex, Delivered, Cached, GoneKeys, GoneVals;
    match m
    case Unsubscribe(l, c) => GetTrimmed(o.clientToItems, {c}, ToSet(l), NullClient);
    case Subscribe(l, c, _) => GetAdded(o.clientToItems, {c}, ToSet(l), NullClient);
    case Update(l, c) => NullUpdate(o, m);
    case Notify(items) => NullUpdate(o, m);
    case _ =>
  }

  lemma NullUpdate(o: Observer, m: Message)
    requires m.Update? || m.Notify?
    ensures Get(Step(o, m).clientToItems, NullClient) == Get(o.clientToItems, NullClient)
  {
  }

  lemma {:induction false} NullHoldsNothing(ms: seq<Message>)
    ensures Get(Run(ms).clientToItems, NullClient) == {}
  {
    hide Step;
    if ms != [] {
      NullHoldsNothing(ms[..|ms| - 1]);
      NullStays(Run(ms[..|ms| - 1]), ms[|ms| - 1]);
    }
  }

  ghost predicate NoSharedUpdate(ms: seq<Message>) {
    forall i :: 0 <= i < |ms| ==> !UpdatesShared(Run(ms[..i]), ms[i])
  }

  lemma {:induction false} CoveredUpTo(ms: seq<Message>, k: nat)
    requires k <= |ms| && NoSharedUpdate(ms)
    ensures Covered(Run(ms[..k]))
  {
    if k > 0 {
      CoveredUpTo(ms, k - 1);
      RunPrefix(ms, k - 1);
      StepCoveredIff(Run(ms[..k - 1]), ms[k - 1]);
    }
  }

  /**
   Over whole runs: in every state every change would be delivered exactly, each client told of
   precisely its own items that changed and nobody missed, if and only if no client ever updates
   its subscription to an item it already holds.
   */
  lemma {:induction false} DeliveryIsExact(ms: seq<Message>)
    ensures (forall k :: 0 <= k <= |ms| ==> DeliversExactly(Run(ms[..k]))) <==> NoSharedUpdate(ms)
  {
    hide Run, Step, DeliversExactly, Covered, UpdatesShared;
    forall k | 0 <= k <= |ms| ensures DeliversExactly(Run(ms[..k])) <==> Covered(Run(ms[..k])) {
      NullHoldsNothing(ms[..k]);
      DeliversIff(Run(ms[..k]));
    }
    if NoSharedUpdate(ms) {
      forall k | 0 <= k <= |ms| ensures Covered(Run(ms[..k])) {
        CoveredUpTo(ms, k);
      }
    }
    if forall k :: 0 <= k <= |ms| ==> DeliversExactly(Run(ms[..k])) {
      forall i | 0 <= i < |ms| ensures !UpdatesShared(Run(ms[..i]), ms[i]) {
        assert DeliversExactly(Run(ms[..i])) && DeliversExactly(Run(ms[..i + 1]));
        RunPrefix(ms, i);
        StepCoveredIff(Run(ms[..i]), ms[i]);
      }
    }
  }

  // ----- who stays listed ----------------------------------------------------------

  /** Nobody is listed for an item it does not hold. */
  ghost predicate Tight(o: Observer) {
    forall c, d :: Listed(o, c, d) ==> Holds(o, c, d)
  }

  /** An update that leaves out an item its client is listed for. */
  ghost predicate DropsListed(o: Observer, m: Message) {
    m.Update? && m.l != [] && m.client != NullClient && exists d :: d !in m.l && Listed(o, m.client, d)
  }

  /** Every message leaves nobody listed for what it does not hold, but for exactly such an update. */
  lemma StepTightIff(o: Observer, m: Message)
    requires Tight(o)
    ensures Tight(Step(o, m)) <==> !DropsListed(o, m)
  {
    var p := Step(o, m);
    var idle := !m.SetSubscriptionObj? && !m.Notify?
                && (m.client == NullClient || (!m.UnsubscribeAll? && m.l == []));
    if m.SetSubscriptionObj? || m.Notify? || idle {
      assert forall c, d :: (Holds(o, c, d) <==> Holds(p, c, d)) && (Listed(o, c, d) <==> Listed(p, c, d));
    } else {
      hide Step, Holds, Listed, DropsListed;
      forall b, d
        ensures Listed(p, b, d) && !Holds(p, b, d) <==> m.Update? && b == m.client && d !in m.l && Listed(o, b, d)
      {
        StepTightPair(o, m, b, d);
      }
      DropsIff(o, m, p);
    }
  }

  lemma StepTightPair(o: Observer, m: Message, b: Client, d: DataItemId)
    requires Tight(o) && !m.SetSubscriptionObj? && !m.Notify?
    requires m.client != NullClient && (m.UnsubscribeAll? || m.l != [])
    ensures var p := Step(o, m);
            Listed(p, b, d) && !Holds(p, b, d) <==> m.Update? && b == m.client && d !in m.l && Listed(o, b, d)
  {
    hide Holds, Listed, AfterSubscribe, AfterUpdate, AfterUnsubscribe, AfterUnsubscribeAll;
    match m
    case Subscribe(l, c, toRequestData) => SubscribePairs(o, l, c, toRequestData, b, d);
    case Update(l, c) => UpdatePairs(o, l, c, b, d);
    case Unsubscribe(l, c) => UnsubscribePairs(o, l, c, b, d);
    case UnsubscribeAll(c) => UnsubscribeAllPairs(o, c, b, d);
  }

  lemma DropsIff(o: Observer, m: Message, p: Observer)
    requires !m.SetSubscriptionObj? && !m.Notify? && m.client != NullClient && (m.UnsubscribeAll? || m.l != [])
    requires forall b, d :: Listed(p, b, d) && !Holds(p, b, d) <==>
                              m.Update? && b == m.client && d !in m.l && Listed(o, b, d)
    ensures Tight(p) <==> !DropsListed(o, m)
  {
    hide Holds, Listed;
    if DropsListed(o, m) {
      var d :| d !in m.l && Listed(o, m.client, d);
      assert Listed(p, m.client, d) && !Holds(p, m.client, d);
    }
  }

  ghost predicate NeverDropsListed(ms: seq<Message>) {
    forall i :: 0 <= i < |ms| ==> !DropsListed(Run(ms[..i]), ms[i])
  }

  lemma {:induction false} TightUpTo(ms: seq<Message>, k: nat)
    requires k <= |ms| && NeverDropsListed(ms)
    ensures Tight(Run(ms[..k]))
  {
    if k > 0 {
      TightUpTo(ms, k - 1);
      RunPrefix(ms, k - 1);
      hide Step;
      StepTightIff(Run(ms[..k - 1]), ms[k - 1]);
    }
  }

  /**
   Over whole runs: in every state nobody is listed for an item it does not hold, if and only if
   no client ever updates its subscription leaving out an item it is listed for.
   */
  lemma {:induction false} TightRunsIff(ms: seq<Message>)
    ensures (forall k :: 0 <= k <= |ms| ==> Tight(Run(ms[..k]))) <==> NeverDropsListed(ms)
  {
    hide Run, Step, Tight, DropsListed;
    if NeverDropsListed(ms) {
      forall k | 0 <= k <= |ms| ensures Tight(Run(ms[..k])) {
        TightUpTo(ms, k);
      }
    }
    if forall k :: 0 <= k <= |ms| ==> Tight(Run(ms[..k])) {
      forall i | 0 <= i < |ms| ensures !DropsListed(Run(ms[..i]), ms[i]) {
        assert Tight(Run(ms[..i])) && Tight(Run(ms[..i + 1]));
        RunPrefix(ms, i);
        StepTightIff(Run(ms[..i]), ms[i]);
      }
    }
  }

  /** A client that leaves is listed nowhere exactly if it was listed for nothing it did not hold. */
  lemma LeavesListIff(o: Observer, c: Client)
    requires c != NullClient
    ensures (forall d :: !Listed(AfterUnsubscribeAll(o, c), c, d)) <==>
            (forall d :: Listed(o, c, d) ==> Holds(o, c, d))
  {
    var p := AfterUnsubscribeAll(o, c);
    hide AfterUnsubscribeAll, Holds, Listed;
    forall d ensures Listed(p, c, d) <==> Listed(o, c, d) && !Holds(o, c, d) {
      UnsubscribeAllPairs(o, c, c, d);
    }
  }

  // ----- concrete runs ---------------------------------------------------------------

  lemma RunNext(ms: seq<Message>, m: Message)
    ensures Run(ms + [m]) == Step(Run(ms), m)
  {
    assert (ms + [m])[..|ms|] == ms;
  }

  /**
   A client subscribes to item 1 and then updates to items 1 and 2.  It still holds item 1, but
   it is no longer listed for it, and a change of item 1 is not delivered.
   */
  lemma UpdateCanMissDelivery() returns (ms: seq<Message>, c: Client, items: seq<DataItem>)
    ensures Holds(Run(ms), c, 1) && !Listed(Run(ms), c, 1)
    ensures Changed(Run(ms), items) == {1}
    ensures Inbox(AfterNotify(Run(ms), items).inbox, c) == Inbox(Run(ms).inbox, c)
  {
    c := Client.Client(7);
    var first, second := Subscribe([1], c, false), Update([1, 2], c);
    RunNext([], first);
    RunNext([first], second);
    ms := [first] + [second];
    var o := Run([first]);
    assert o == AfterSubscribe(INITIAL_OBSERVER, [1], c, false) && Run(ms) == AfterUpdate(o, [1, 2], c);
    hide *;
    SubscribePairs(INITIAL_OBSERVER, [1], c, false, c, 1);
    UpdatePairs(o, [1, 2], c, c, 1);
    items := MissedChange(Run(ms), c, 1);
  }

  /** A client updates from item 1 to item 2 and leaves: it is still listed for item 1. */
  lemma DepartedClientCanStayListed() returns (ms: seq<Message>, c: Client)
    ensures Listed(Run(ms), c, 1) && forall d :: !Holds(Run(ms), c, d)
  {
    c := Client.Client(7);
    var first, second, third := Subscribe([1], c, false), Update([2], c), UnsubscribeAll(c);
    RunNext([], first);
    RunNext([first], second);
    RunNext([first] + [second], third);
    ms := [first] + [second] + [third];
    var o := Run([first]);
    var p := Run([first] + [second]);
    assert o == AfterSubscribe(INITIAL_OBSERVER, [1], c, false) && p == AfterUpdate(o, [2], c);
    assert Run(ms) == AfterUnsubscribeAll(p, c);
    hide *;
    SubscribePairs(INITIAL_OBSERVER, [1], c, false, c, 1);
    UpdatePairs(o, [2], c, c, 1);
    UnsubscribeAllPairs(p, c, c, 1);
    forall d ensures !Holds(Run(ms), c, d) {
      UnsubscribeAllPairs(p, c, c, d);
    }
  }

  /** An object is set and a client requests item 1: it is listed, but the framework is not subscribed. */
  lemma RequestCanReplaceSubscription() returns (ms: seq<Message>, c: Client)
    ensures Listed(Run(ms), c, 1) && Run(ms).subscriptionObj == Some(1) && !SubscribesAllWanted(Run(ms))
  {
    c := Client.Client(7);
    var first, second := SetSubscriptionObj(1), Subscribe([1], c, true);
    RunNext([], first);
    RunNext([first], second);
    ms := [first] + [second];
    var o := Run([first]);
    assert o == AfterSetSubscriptionObj(INITIAL_OBSERVER, 1) && Run(ms) == AfterSubscribe(o, [1], c, true);
    assert o.itemToClients == map[] && o.subscriptionObj == Some(1) && o.calls == [];
    assert Run(ms).subscriptionObj == Some(1);
    assert Exact(o);
    RunNoEmpty([first]);
    RunNoEmpty(ms);
    hide Run, Exact, AfterSubscribe, Wanted, SubscribesAllWanted;
    SubscribePairs(o, [1], c, true, c, 1);
    assert !Wanted(o, 1) && RequestsNew(o, second) by { assert 1 in second.l; }
    StepFramework(o, second);
    ByWhoIsListed(Run(ms));
  }
}
