/**
 What clients of the OS observer know over whole runs: whoever holds an item has last been told
 the value that is cached for it, unless a notification misses the client.
 */
module OsObserverDelivery {
  import opened OsObserver
  import opened OsObserverRuns
  import opened SetMaps
  import opened Wrappers

  /** The value of an item in the latest of the messages that has one. */
  ghost function LastOf(messages: seq<Items>, d: DataItemId): Option<Value> {
    if messages == [] then None else
      var last := messages[|messages| - 1];
      if d in last then Some(last[d]) else LastOf(messages[..|messages| - 1], d)
  }

  /** What a client was last told of an item. */
  ghost function Told(o: Observer, c: Client, d: DataItemId): Option<Value> {
    LastOf(Inbox(o.inbox, c), d)
  }

  /** Whoever holds an item knows its cached value, and there is no other source of values. */
  ghost predicate Knows(o: Observer, c: Client, d: DataItemId) {
    && (Holds(o, c, d) ==> Told(o, c, d) == Entry(o.cache, d))
    && (Told(o, c, d).Some? ==> d in o.cache)
  }

  ghost predicate UpToDate(o: Observer) {
    forall c, d :: c != NullClient ==> Knows(o, c, d)
  }

  /** The entry of an item once the items have arrived. */
  ghost function Final(o: Observer, items: seq<DataItem>, d: DataItemId): Option<Value> {
    var values := Arrived(o, items, d);
    ValueAfter(Entry(o.cache, d), values, |values|)
  }

  /** The client holds an item that gets a new value, and it is listed for none that changes. */
  ghost predicate Misses(o: Observer, items: seq<DataItem>, c: Client, d: DataItemId) {
    && c != NullClient && Holds(o, c, d) && Final(o, items, d) != Entry(o.cache, d)
    && forall e :: Listed(o, c, e) ==> !Changes(o, items, e)
  }

  ghost predicate MissesSome(o: Observer, m: Message) {
    m.Notify? && exists c, d :: Misses(o, m.items, c, d)
  }

  // ----- sending ------------------------------------------------------------------

  lemma LastOfNext(messages: seq<Items>, items: Items, d: DataItemId)
    ensures LastOf(messages + [items], d) == if d in items then Some(items[d]) else LastOf(messages, d)
  {
    assert (messages + [items])[..|messages|] == messages;
  }

  lemma SendTells(o: Observer, ids: set<DataItemId>, c: Client, b: Client, d: DataItemId)
    requires c != NullClient
    ensures Told(Send(o, ids, c), b, d)
            == if b == c && d in ids && d in o.cache then Some(o.cache[d]) else Told(o, b, d)
  {
    LastOfNext(Inbox(o.inbox, b), Cached(o.cache, ids), d);
    hide LastOf;
    if d in ids && d in o.cache {
      assert d in Cached(o.cache, ids);
    }
  }

  lemma SubscribeTells(o: Observer, l: seq<DataItemId>, c: Client, toRequestData: bool, b: Client, d: DataItemId)
    requires l != [] && c != NullClient
    ensures var p := AfterSubscribe(o, l, c, toRequestData);
            && p.cache == o.cache
            && Told(p, b, d) == if b == c && d in l && d in o.cache then Some(o.cache[d]) else Told(o, b, d)
  {
    SendTells(o, ToSet(l), c, b, d);
    hide Delivered, Cached, Inbox, LastOf;
  }

  lemma UpdateTells(o: Observer, l: seq<DataItemId>, c: Client, b: Client, d: DataItemId)
    requires l != [] && c != NullClient
    ensures var p := AfterUpdate(o, l, c);
            && p.cache == o.cache
            && Told(p, b, d) == if b == c && d in l && !Holds(o, c, d) && d in o.cache then Some(o.cache[d])
                                else Told(o, b, d)
  {
    SendTells(o, ToSet(l) - Get(o.clientToItems, c), c, b, d);
    hide Delivered, Cached, Inbox, LastOf;
  }

  lemma UnsubscribeTells(o: Observer, l: seq<DataItemId>, c: Client, b: Client, d: DataItemId)
    ensures AfterUnsubscribe(o, l, c).cache == o.cache && Told(AfterUnsubscribe(o, l, c), b, d) == Told(o, b, d)
    ensures AfterUnsubscribeAll(o, c).cache == o.cache && Told(AfterUnsubscribeAll(o, c), b, d) == Told(o, b, d)
  {
    hide Trimmed, GoneKeys, GoneVals, LastOf;
  }

  // ----- notifications ------------------------------------------------------------

  lemma {:induction false} SameValue(before: Option<Value>, values: seq<Value>, i: nat)
    requires i <= |values| && !Differs(before, values)
    ensures ValueAfter(before, values, i) == before
  {
    if i > 0 {
      SameValue(before, values, i - 1);
      assert Some(values[i - 1]) == ValueAfter(before, values, i - 1);
    }
  }

  /** An item gets a new value only if it changes on the way. */
  lemma NewValueChanges(o: Observer, items: seq<DataItem>, d: DataItemId)
    ensures Final(o, items, d) != Entry(o.cache, d) ==> Changes(o, items, d)
    ensures Entry(AfterNotify(o, items).cache, d) == Final(o, items, d)
  {
    ChangedIs(o, items, d);
    if !Changes(o, items, d) {
      SameValue(Entry(o.cache, d), Arrived(o, items, d), |Arrived(o, items, d)|);
    }
    hide AfterNotify, Arrived, Differs;
  }

  lemma NotifyTells(o: Observer, items: seq<DataItem>, c: Client, d: DataItemId)
    requires c != NullClient
    ensures var listed := exists e :: Listed(o, c, e) && Changes(o, items, e);
            Told(AfterNotify(o, items), c, d)
            == if listed && Holds(o, c, d) && Changes(o, items, d) then Final(o, items, d) else Told(o, c, d)
  {
    DeliveryOf(o, items, c);
    InterestedIff(o, items, c);
    DueTells(o, items, c, d);
    hide AfterNotify, Due, Changes, Final, LastOf, Interested, Inbox;
  }

  lemma InterestedIff(o: Observer, items: seq<DataItem>, c: Client)
    ensures c in Interested(o.itemToClients, Changed(o, items)) <==>
            exists e :: Listed(o, c, e) && Changes(o, items, e)
  {
    forall e ensures e in Changed(o, items) <==> Changes(o, items, e) {
      ChangedIs(o, items, e);
    }
    hide Changed, Changes;
    if e :| Listed(o, c, e) && Changes(o, items, e) {
      assert e in o.itemToClients;
    }
  }

  lemma DueTells(o: Observer, items: seq<DataItem>, c: Client, d: DataItemId)
    requires c != NullClient
    ensures LastOf(Inbox(o.inbox, c) + Due(o, items, c), d)
            == if Holds(o, c, d) && Changes(o, items, d) then Final(o, items, d) else Told(o, c, d)
  {
    var before, due := Inbox(o.inbox, c), Due(o, items, c);
    if Changes(o, items, d) { ChangesArrived(o, items, d); }
    hide Changes, Arrived, LastOf, Inbox;
    var wanted := set e | e in Get(o.clientToItems, c) && Changes(o, items, e);
    assert d in wanted <==> Holds(o, c, d) && Changes(o, items, d);
    if due == [] {
      assert before + due == before;
    } else {
      LastOfNext(before, due[0], d);
      assert due == [due[0]];
    }
  }

  // ----- steps and runs -----------------------------------------------------------

  lemma NotifyKnowsIff(o: Observer, items: seq<DataItem>, c: Client, d: DataItemId)
    requires c != NullClient && Knows(o, c, d)
    ensures Knows(AfterNotify(o, items), c, d) <==> !Misses(o, items, c, d)
  {
    NotifyTells(o, items, c, d);
    NewValueChanges(o, items, d);
    ChangedIs(o, items, d);
    var p := AfterNotify(o, items);
    assert Holds(p, c, d) == Holds(o, c, d);
    hide AfterNotify, Changes, Arrived, Told, Listed;
    assert d in o.cache ==> Final(o, items, d).Some?;
  }

  /** Every message keeps everybody up to date, but for exactly a notification that misses somebody. */
  lemma StepUpToDateIff(o: Observer, m: Message)
    requires UpToDate(o)
    ensures UpToDate(Step(o, m)) <==> !MissesSome(o, m)
  {
    hide Knows, Misses;
    if m.Notify? {
      forall c, d ensures c != NullClient ==> (Knows(Step(o, m), c, d) <==> !Misses(o, m.items, c, d))
                  ensures c == NullClient ==> !Misses(o, m.items, c, d)
      {
        if c != NullClient { NotifyKnowsIff(o, m.items, c, d); } else { NullIsNotMissed(o, m.items, d); }
      }
      hide Step;
    } else {
      forall c, d | c != NullClient ensures Knows(Step(o, m), c, d) {
        OtherKnows(o, m, c, d);
      }
    }
  }

  lemma NullIsNotMissed(o: Observer, items: seq<DataItem>, d: DataItemId)
    ensures !Misses(o, items, NullClient, d)
  {
  }

  lemma OtherKnows(o: Observer, m: Message, b: Client, d: DataItemId)
    requires Knows(o, b, d) && !m.Notify?
    ensures Knows(Step(o, m), b, d)
  {
    hide Knows;
    match m
    case Subscribe(l, c, toRequest) => if l != [] && c != NullClient { SubscribeKnows(o, l, c, toRequest, b, d); }
    case Update(l, c) => if l != [] && c != NullClient { UpdateKnows(o, l, c, b, d); }
    case Unsubscribe(l, c) => if l != [] && c != NullClient { UnsubscribeKnows(o, l, c, b, d); }
    case UnsubscribeAll(c) => if c != NullClient { UnsubscribeAllKnows(o, c, b, d); }
    case SetSubscriptionObj(obj) => SetObjKnows(o, obj, b, d);
  }

  lemma SubscribeKnows(o: Observer, l: seq<DataItemId>, c: Client, toRequestData: bool, b: Client, d: DataItemId)
    requires Knows(o, b, d) && l != [] && c != NullClient
    ensures Knows(AfterSubscribe(o, l, c, toRequestData), b, d)
  {
    SubscribePairs(o, l, c, toRequestData, b, d);
    SubscribeTells(o, l, c, toRequestData, b, d);
    hide AfterSubscribe, Holds, Told;
  }

  lemma UpdateKnows(o: Observer, l: seq<DataItemId>, c: Client, b: Client, d: DataItemId)
    requires Knows(o, b, d) && l != [] && c != NullClient
    ensures Knows(AfterUpdate(o, l, c), b, d)
  {
    UpdatePairs(o, l, c, b, d);
    UpdateTells(o, l, c, b, d);
    hide AfterUpdate, Holds, Told;
  }

  lemma UnsubscribeKnows(o: Observer, l: seq<DataItemId>, c: Client, b: Client, d: DataItemId)
    requires Knows(o, b, d) && l != [] && c != NullClient
    ensures Knows(AfterUnsubscribe(o, l, c), b, d)
  {
    UnsubscribePairs(o, l, c, b, d);
    UnsubscribeTells(o, l, c, b, d);
    hide AfterUnsubscribe, Holds, Told;
  }

  lemma UnsubscribeAllKnows(o: Observer, c: Client, b: Client, d: DataItemId)
    requires Knows(o, b, d) && c != NullClient
    ensures Knows(AfterUnsubscribeAll(o, c), b, d)
  {
    UnsubscribeAllPairs(o, c, b, d);
    UnsubscribeTells(o, [], c, b, d);
    hide AfterUnsubscribeAll, Holds, Told;
  }

  lemma SetObjKnows(o: Observer, obj: nat, b: Client, d: DataItemId)
    requires Knows(o, b, d)
    ensures Knows(AfterSetSubscriptionObj(o, obj), b, d)
  {
  }

  ghost predicate NeverMisses(ms: seq<Message>) {
    forall i :: 0 <= i < |ms| ==> !MissesSome(Run(ms[..i]), ms[i])
  }

  lemma {:induction false} UpToDateUpTo(ms: seq<Message>, k: nat)
    requires k <= |ms| && NeverMisses(ms)
    ensures UpToDate(Run(ms[..k]))
  {
    if k > 0 {
      UpToDateUpTo(ms, k - 1);
      RunPrefix(ms, k - 1);
      hide Step, UpToDate, MissesSome, Run;
      assert !MissesSome(Run(ms[..k - 1]), ms[k - 1]);
      StepUpToDateIff(Run(ms[..k - 1]), ms[k - 1]);
    }
  }

  /**
   Over whole runs: in every state every client has last been told the cached value of each item
   it holds, if and only if no notification changes an item of a client that is listed for none
   of the items that change.
   */
  lemma {:induction false} UpToDateRunsIff(ms: seq<Message>)
    ensures (forall k :: 0 <= k <= |ms| ==> UpToDate(Run(ms[..k]))) <==> NeverMisses(ms)
  {
    hide Run, Step, UpToDate, MissesSome;
    if NeverMisses(ms) {
      forall k | 0 <= k <= |ms| ensures UpToDate(Run(ms[..k])) {
        UpToDateUpTo(ms, k);
      }
    }
    if forall k :: 0 <= k <= |ms| ==> UpToDate(Run(ms[..k])) {
      forall i | 0 <= i < |ms| ensures !MissesSome(Run(ms[..i]), ms[i]) {
        assert UpToDate(Run(ms[..i])) && UpToDate(Run(ms[..i + 1]));
        RunPrefix(ms, i);
        StepUpToDateIff(Run(ms[..i]), ms[i]);
      }
    }
  }

  /** So it is as long as no client updates its subscription to an item it already holds. */
  lemma {:induction false} CoveredIsUpToDate(ms: seq<Message>)
    requires NoSharedUpdate(ms)
    ensures UpToDate(Run(ms))
  {
    forall i | 0 <= i < |ms| ensures !MissesSome(Run(ms[..i]), ms[i]) {
      CoveredUpTo(ms, i);
      CoveredMisses(Run(ms[..i]), ms[i]);
    }
    UpToDateUpTo(ms, |ms|);
    assert ms[..|ms|] == ms;
  }

  lemma CoveredMisses(o: Observer, m: Message)
    requires Covered(o)
    ensures !MissesSome(o, m)
  {
    if m.Notify? {
      forall c, d ensures !Misses(o, m.items, c, d) {
        NewValueChanges(o, m.items, d);
        hide Changes, Final, AfterNotify;
      }
    }
  }
}
