/**
 The OS observer: clients subscribe to data items, the framework is subscribed on their
 behalf, and each change is delivered to whoever is subscribed.

 Two indexes are kept, client to items and item to clients.  Each queued message is one
 atomic step.
 */
module OsObserver {
  import opened SetMaps
  import opened Wrappers

  type DataItemId = nat
  type Value = int

  datatype Client = NullClient | Client(address: nat)

  /** What is sent to the framework's subscription object. */
  datatype FrameworkCall =
    | FwSubscribe(obj: nat, ids: set<DataItemId>)
    | FwUnsubscribe(obj: nat, ids: set<DataItemId>)
    | FwRequestData(obj: nat, ids: set<DataItemId>)

  type Items = map<DataItemId, Value>

  datatype Observer = Observer(
    clientToItems: map<Client, set<DataItemId>>,
    itemToClients: map<DataItemId, set<Client>>,
    cache: Items,
    subscriptionObj: Option<nat>,
    calls: seq<FrameworkCall>,
    inbox: map<Client, seq<Items>>)  // what each client was notified with, in order

  const INITIAL_OBSERVER := Observer(map[], map[], map[], None, [], map[])

  /**
   A data item as it arrives.  `accepted` is SystemStatus agreeing to record it, `creatable` the
   factory being able to make one; a null pointer carries nothing.
   */
  datatype DataItem = NullItem | Item(id: DataItemId, value: Value, accepted: bool, creatable: bool)

  function ToSet(l: seq<DataItemId>): set<DataItemId> {
    set d | d in l
  }

  // ----- sending cached items -----------------------------------------------------

  function Cached(cache: Items, ids: set<DataItemId>): Items {
    map d | d in ids && d in cache :: cache[d]
  }

  function Inbox(inbox: map<Client, seq<Items>>, c: Client): seq<Items> {
    if c in inbox then inbox[c] else []
  }

  /** A client is notified unless it is null or there is nothing to tell. */
  function Delivered(inbox: map<Client, seq<Items>>, c: Client, items: Items): map<Client, seq<Items>> {
    if c == NullClient || items == map[] then inbox else inbox[c := Inbox(inbox, c) + [items]]
  }

  ghost function Send(o: Observer, ids: set<DataItemId>, c: Client): Observer {
    o.(inbox := Delivered(o.inbox, c, Cached(o.cache, ids)))
  }

  /** Calls are made when there is an object to make them on and something to say. */
  function Subscribing(obj: Option<nat>, ids: set<DataItemId>): seq<FrameworkCall> {
    if obj.Some? && ids != {} then [FwSubscribe(obj.value, ids)] else []
  }

  function Unsubscribing(obj: Option<nat>, ids: set<DataItemId>): seq<FrameworkCall> {
    if obj.Some? && ids != {} then [FwUnsubscribe(obj.value, ids)] else []
  }

  function Requesting(obj: Option<nat>, ids: set<DataItemId>): seq<FrameworkCall> {
    if obj.Some? then [FwRequestData(obj.value, ids)] else []
  }

  // ----- what each message does ---------------------------------------------------

  ghost function AfterSubscribe(o: Observer, l: seq<DataItemId>, c: Client, toRequestData: bool): Observer {
    if l == [] || c == NullClient then o else
      var ids := ToSet(l);
      var added := ids - o.itemToClients.Keys;
      var p := Send(o.(itemToClients := Added(o.itemToClients, ids, {c}),
                       clientToItems := Added(o.clientToItems, {c}, ids)), ids, c);
      p.(calls := p.calls + if toRequestData then Requesting(p.subscriptionObj, ids)
                            else Subscribing(p.subscriptionObj, added))
  }

  /**
   The update of a subscription, given the items to take the client off and the items to put it
   on.  The source takes both from `LocUnorderedSetMap::update`.
   */
  ghost function AfterReindex(o: Observer, ids: set<DataItemId>, c: Client,
                              off: set<DataItemId>, on: set<DataItemId>): Observer
  {
    var trimmed := Trimmed(o.itemToClients, off, {c});
    var gone := GoneKeys(o.itemToClients, off, {c});
    var added := on - trimmed.Keys;
    var p := Send(o.(clientToItems := o.clientToItems[c := ids],
                     itemToClients := Added(trimmed, on, {c})), on, c);
    p.(calls := p.calls + Subscribing(p.subscriptionObj, added) + Unsubscribing(p.subscriptionObj, gone))
  }

  /** What the code does: the items the old and new sets share are the ones taken off. */
  ghost function AfterUpdate(o: Observer, l: seq<DataItemId>, c: Client): Observer {
    if l == [] || c == NullClient then o else
      var ids, held := ToSet(l), Get(o.clientToItems, c);
      AfterReindex(o, ids, c, held * ids, ids - held)
  }

  /** What its comments promise: the items no longer used are the ones taken off. */
  ghost function AfterDocumentedUpdate(o: Observer, l: seq<DataItemId>, c: Client): Observer {
    if l == [] || c == NullClient then o else
      var ids, held := ToSet(l), Get(o.clientToItems, c);
      AfterReindex(o, ids, c, held - ids, ids - held)
  }

  ghost function AfterUnsubscribe(o: Observer, l: seq<DataItemId>, c: Client): Observer {
    if l == [] || c == NullClient then o else
      var ids := ToSet(l);
      var unused := GoneVals(o.clientToItems, {c}, ids);
      var gone := GoneKeys(o.itemToClients, unused, {c});
      o.(clientToItems := Trimmed(o.clientToItems, {c}, ids),
         itemToClients := Trimmed(o.itemToClients, unused, {c}),
         calls := o.calls + Unsubscribing(o.subscriptionObj, gone))
  }

  ghost function AfterUnsubscribeAll(o: Observer, c: Client): Observer {
    var held := Get(o.clientToItems, c);
    if c == NullClient || held == {} then o else
      var gone := GoneKeys(o.itemToClients, held, {c});
      o.(clientToItems := o.clientToItems - {c},
         itemToClients := Trimmed(o.itemToClients, held, {c}),
         calls := o.calls + Unsubscribing(o.subscriptionObj, gone))
  }

  ghost function AfterSetSubscriptionObj(o: Observer, obj: nat): Observer {
    var keys := o.itemToClients.Keys;
    o.(subscriptionObj := Some(obj),
       calls := o.calls + if keys == {} then [] else [FwSubscribe(obj, keys), FwRequestData(obj, keys)])
  }

  /** Recording one item, and whether that changed the cache. */
  function UpdateCache(cache: Items, item: DataItem): (Items, bool) {
    if item.NullItem? || !item.accepted then (cache, false)
    else if item.id !in cache
    then (if item.creatable then (cache[item.id := item.value], true) else (cache, false))
    else (cache[item.id := item.value], cache[item.id] != item.value)
  }

  /** The cache after a list of items, and the ids whose entry changed on the way. */
  ghost function UpdateAll(cache: Items, changed: set<DataItemId>, items: seq<DataItem>): (Items, set<DataItemId>)
    decreases items
  {
    if items == [] then (cache, changed) else
      var (next, updated) := UpdateCache(cache, items[0]);
      UpdateAll(next, if updated then changed + {items[0].id} else changed, items[1..])
  }

  /** The clients of any of the ids. */
  function Interested(itemToClients: map<DataItemId, set<Client>>, ids: set<DataItemId>): set<Client> {
    set d, c | d in ids && d in itemToClients && c in itemToClients[d] :: c
  }

  /** Everybody in `to` is sent the changed items it is subscribed to. */
  ghost function DeliverAll(o: Observer, changed: set<DataItemId>, to: set<Client>): map<Client, seq<Items>> {
    map c | c in o.inbox.Keys + to && (c in o.inbox || Notice(o, changed, to, c) != []) ::
      Inbox(o.inbox, c) + Notice(o, changed, to, c)
  }

  ghost function Notice(o: Observer, changed: set<DataItemId>, to: set<Client>, c: Client): seq<Items> {
    var items := Cached(o.cache, Get(o.clientToItems, c) * changed);
    if c in to && c != NullClient && items != map[] then [items] else []
  }

  ghost function AfterNotify(o: Observer, items: seq<DataItem>): Observer {
    var (cache, changed) := UpdateAll(o.cache, {}, items);
    var p := o.(cache := cache);
    p.(inbox := DeliverAll(p, changed, Interested(p.itemToClients, changed)))
  }

  // ----- the observer, in place ---------------------------------------------------

  class SystemStatusOsObserver {
    const mClientToDataItems: LocUnorderedSetMap<Client, DataItemId>
    const mDataItemToClients: LocUnorderedSetMap<DataItemId, Client>
    var mDataItemCache: Items
    var mSubscriptionObj: Option<nat>
    ghost var calls: seq<FrameworkCall>
    ghost var inbox: map<Client, seq<Items>>

    ghost function View(): Observer
      reads this, mClientToDataItems, mDataItemToClients
    {
      Observer(mClientToDataItems.mMap, mDataItemToClients.mMap, mDataItemCache, mSubscriptionObj, calls, inbox)
    }

    constructor ()
      ensures View() == INITIAL_OBSERVER
      ensures fresh(mClientToDataItems) && fresh(mDataItemToClients)
    {
      mClientToDataItems := new LocUnorderedSetMap<Client, DataItemId>();
      mDataItemToClients := new LocUnorderedSetMap<DataItemId, Client>();
      mDataItemCache := map[];
      mSubscriptionObj := None;
      calls := [];
      inbox := map[];
    }

    method SetSubscriptionObj(obj: nat)
      modifies this`mSubscriptionObj, this`calls
      ensures View() == AfterSetSubscriptionObj(old(View()), obj)
    {
      mSubscriptionObj := Some(obj);
      if mDataItemToClients.mMap != map[] {
        var dis := mDataItemToClients.mMap.Keys;
        calls := calls + [FwSubscribe(obj, dis), FwRequestData(obj, dis)];
      }
    }

    method Subscribe(l: seq<DataItemId>, client: Client, toRequestData: bool)
      modifies this`calls, this`inbox, mClientToDataItems, mDataItemToClients
      ensures View() == AfterSubscribe(old(View()), l, client, toRequestData)
    {
      if l == [] || client == NullClient {
        return;
      }
      var ids := ToSet(l);
      var dataItemsToSubscribe := mDataItemToClients.AddToAll(ids, {client});
      var _ := mClientToDataItems.Add(client, ids);
      SendCachedDataItems(ids, client);
      if mSubscriptionObj.Some? {
        if toRequestData {
          assert l[0] in ids;
          calls := calls + [FwRequestData(mSubscriptionObj.value, ids)];
        } else if dataItemsToSubscribe != {} {
          calls := calls + [FwSubscribe(mSubscriptionObj.value, dataItemsToSubscribe)];
        }
      }
    }

    method UpdateSubscription(l: seq<DataItemId>, client: Client)
      modifies this`calls, this`inbox, mClientToDataItems, mDataItemToClients
      ensures View() == AfterUpdate(old(View()), l, client)
    {
      hide Added, Trimmed, GoneKeys, Delivered, Cached;
      if l == [] || client == NullClient {
        return;
      }
      var ids := ToSet(l);
      assert l[0] in ids;
      var off, on := mClientToDataItems.Update(client, ids);
      var dataItemsToUnsubscribe, _ := mDataItemToClients.TrimOrRemove(off, {client});
      var dataItemsToSubscribe := mDataItemToClients.AddToAll(on, {client});
      SendCachedDataItems(on, client);
      if mSubscriptionObj.Some? {
        if dataItemsToSubscribe != {} {
          calls := calls + [FwSubscribe(mSubscriptionObj.value, dataItemsToSubscribe)];
        }
        if dataItemsToUnsubscribe != {} {
          calls := calls + [FwUnsubscribe(mSubscriptionObj.value, dataItemsToUnsubscribe)];
        }
      }
    }

    method Unsubscribe(l: seq<DataItemId>, client: Client)
      modifies this`calls, mClientToDataItems, mDataItemToClients
      ensures View() == AfterUnsubscribe(old(View()), l, client)
    {
      if l == [] || client == NullClient {
        return;
      }
      var ids := ToSet(l);
      var _, unused := mClientToDataItems.TrimOrRemove({client}, ids);
      var dataItemsToUnsubscribe, _ := mDataItemToClients.TrimOrRemove(unused, {client});
      if mSubscriptionObj.Some? && dataItemsToUnsubscribe != {} {
        calls := calls + [FwUnsubscribe(mSubscriptionObj.value, dataItemsToUnsubscribe)];
      }
    }

    method UnsubscribeAll(client: Client)
      modifies this`calls, mClientToDataItems, mDataItemToClients
      ensures View() == AfterUnsubscribeAll(old(View()), client)
    {
      if client == NullClient {
        return;
      }
      var diByClient := mClientToDataItems.GetValSet(client);
      if diByClient != {} {
        var _ := mClientToDataItems.Remove(client);
        var dataItemsToUnsubscribe, _ := mDataItemToClients.TrimOrRemove(diByClient, {client});
        if dataItemsToUnsubscribe != {} && mSubscriptionObj.Some? {
          calls := calls + [FwUnsubscribe(mSubscriptionObj.value, dataItemsToUnsubscribe)];
        }
      }
    }

    method SendCachedDataItems(ids: set<DataItemId>, to: Client)
      modifies this`inbox
      ensures inbox == Delivered(old(inbox), to, Cached(mDataItemCache, ids))
    {
      if to == NullClient {
        return;
      }
      var dataItems: Items := map[];
      var todo := ids;
      while todo != {}
        invariant todo <= ids
        invariant dataItems == Cached(mDataItemCache, ids - todo)
        decreases todo
      {
        var each :| each in todo;
        if each in mDataItemCache {
          dataItems := dataItems[each := mDataItemCache[each]];
        }
        todo := todo - {each};
      }
      assert ids - todo == ids;
      if dataItems != map[] {
        inbox := inbox[to := Inbox(inbox, to) + [dataItems]];
      }
    }

    method UpdateCacheWith(d: DataItem) returns (dataItemUpdated: bool)
      modifies this`mDataItemCache
      ensures (mDataItemCache, dataItemUpdated) == UpdateCache(old(mDataItemCache), d)
    {
      dataItemUpdated := false;
      if d.Item? && d.accepted {
        if d.id !in mDataItemCache {
          if d.creatable {
            mDataItemCache := mDataItemCache[d.id := d.value];
            dataItemUpdated := true;
          }
        } else {
          dataItemUpdated := mDataItemCache[d.id] != d.value;
          mDataItemCache := mDataItemCache[d.id := d.value];
        }
      }
    }

    method Notify(items: seq<DataItem>)
      modifies this`mDataItemCache, this`inbox
      ensures View() == AfterNotify(old(View()), items)
    {
      var changed: set<DataItemId> := {};
      var i := 0;
      while i < |items|
        invariant 0 <= i <= |items|
        invariant UpdateAll(mDataItemCache, changed, items[i..]) == UpdateAll(old(mDataItemCache), {}, items)
        invariant inbox == old(inbox)
      {
        assert items[i..][1..] == items[i + 1..];
        var updated := UpdateCacheWith(items[i]);
        if updated {
          changed := changed + {items[i].id};
        }
        i := i + 1;
      }
      assert (mDataItemCache, changed) == UpdateAll(old(mDataItemCache), {}, items);
      DeliverChanged(changed);
    }

    /** The second half of a notify: find the clients, then send each its share. */
    method DeliverChanged(changed: set<DataItemId>)
      modifies this`inbox
      ensures inbox == DeliverAll(old(View()), changed, Interested(mDataItemToClients.mMap, changed))
    {
      ghost var o := View();
      var clientSet := Interested(mDataItemToClients.mMap, changed);
      var todo := clientSet;
      DeliverNone(o, changed);
      while todo != {}
        invariant todo <= clientSet
        invariant inbox == DeliverAll(o, changed, clientSet - todo)
        decreases todo
      {
        var client :| client in todo;
        var ids := mClientToDataItems.GetValSet(client);
        DeliverOne(o, changed, clientSet - todo, client);
        assert clientSet - (todo - {client}) == (clientSet - todo) + {client};
        SendCachedDataItems(ids * changed, client);
        todo := todo - {client};
      }
      assert clientSet - todo == clientSet;
    }
  }

  lemma DeliverNone(o: Observer, changed: set<DataItemId>)
    ensures DeliverAll(o, changed, {}) == o.inbox
  {
    forall c | c in o.inbox ensures DeliverAll(o, changed, {})[c] == o.inbox[c] {
      assert Inbox(o.inbox, c) + [] == o.inbox[c];
    }
  }

  lemma NoticeOne(o: Observer, changed: set<DataItemId>, to: set<Client>, c: Client, d: Client)
    requires c !in to
    ensures d != c ==> Notice(o, changed, to + {c}, d) == Notice(o, changed, to, d)
    ensures Notice(o, changed, to, c) == []
    ensures var items := Cached(o.cache, Get(o.clientToItems, c) * changed);
            Notice(o, changed, to + {c}, c) == if c != NullClient && items != map[] then [items] else []
  {
  }

  lemma DeliverOne(o: Observer, changed: set<DataItemId>, to: set<Client>, c: Client)
    requires c !in to
    ensures DeliverAll(o, changed, to + {c})
            == Delivered(DeliverAll(o, changed, to), c, Cached(o.cache, Get(o.clientToItems, c) * changed))
  {
    hide Cached, Get, Notice;
    var before, after := DeliverAll(o, changed, to), DeliverAll(o, changed, to + {c});
    var items := Cached(o.cache, Get(o.clientToItems, c) * changed);
    var expected := Delivered(before, c, items);
    NoticeOne(o, changed, to, c, c);
    assert Inbox(before, c) == Inbox(o.inbox, c) by {
      assert Inbox(o.inbox, c) + [] == Inbox(o.inbox, c);
    }
    forall d
      ensures d in after <==> d in expected
      ensures d in after ==> after[d] == expected[d]
    {
      NoticeOne(o, changed, to, c, d);
      assert Inbox(o.inbox, d) + [] == Inbox(o.inbox, d);
    }
  }
}
