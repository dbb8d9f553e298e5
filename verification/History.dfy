/**
 The bounded history that `SystemStatus` keeps of each kind of report: an item equal to the
 newest one only refreshes its time, any other is appended, and beyond five the oldest goes.
 */
module History {

  const MAX_ITEM := 5

  /** `content` is what `equals` compares; the two times are not part of it. */
  datatype Item<T> = Item(content: T, utcTime: int, utcReported: int)

  /** An item that arrived, and whether it was a default, which is stored without comparing. */
  datatype Event<T> = Event(item: Item<T>, forced: bool)

  // ----- the reference: the whole stream, with repetitions collapsed -----------------

  predicate Repeats<T(==)>(newest: Item<T>, e: Event<T>) {
    !e.forced && e.item.content == newest.content
  }

  /** The stream that starts with `head` with every repetition merged into the item it repeats. */
  function CollapsedFrom<T(==)>(head: Item<T>, rest: seq<Event<T>>): seq<Item<T>>
    decreases |rest|
  {
    if rest == [] then [head]
    else if Repeats(head, rest[0]) then CollapsedFrom(head.(utcReported := rest[0].item.utcReported), rest[1..])
    else [head] + CollapsedFrom(rest[0].item, rest[1..])
  }

  function Collapsed<T(==)>(stream: seq<Event<T>>): seq<Item<T>> {
    if stream == [] then [] else CollapsedFrom(stream[0].item, stream[1..])
  }

  function Newest<T>(s: seq<T>, n: nat): seq<T> {
    if |s| <= n then s else s[|s| - n..]
  }

  // ----- the report vector ----------------------------------------------------------

  function Appended<T>(report: seq<Item<T>>, s: Item<T>): seq<Item<T>> {
    Newest(report + [s], MAX_ITEM)
  }

  /** The report after one event. */
  function Set<T(==)>(report: seq<Item<T>>, e: Event<T>): seq<Item<T>> {
    if report != [] && Repeats(report[|report| - 1], e)
    then report[|report| - 1 := report[|report| - 1].(utcReported := e.item.utcReported)]
    else Appended(report, e.item)
  }

  class ItemReport<T(==)> {
    var items: seq<Item<T>>

    ghost predicate Valid()
      reads this
    {
      |items| <= MAX_ITEM
    }

    constructor ()
      ensures Valid() && items == []
    {
      items := [];
    }

    /** Whether the item differs from the newest one, and was stored. */
    method SetItemInReport(s: Item<T>) returns (changed: bool)
      requires Valid()
      modifies this
      ensures Valid() && items == Set(old(items), Event(s, false))
      ensures changed <==> old(items) == [] || old(items)[|old(items)| - 1].content != s.content
    {
      if items != [] && items[|items| - 1].content == s.content {
        items := items[|items| - 1 := items[|items| - 1].(utcReported := s.utcReported)];
        return false;
      }
      items := items + [s];
      if |items| > MAX_ITEM {
        items := items[1..];
      }
      return true;
    }

    method SetDefaultItemInReport(s: Item<T>)
      requires Valid()
      modifies this
      ensures Valid() && items == Set(old(items), Event(s, true))
    {
      items := items + [s];
      if |items| > MAX_ITEM {
        items := items[1..];
      }
    }

    /** The report that is given out: the newest item, if there is one. */
    method GetItemInReport() returns (reportOut: seq<Item<T>>)
      ensures reportOut == Newest(items, 1)
    {
      reportOut := [];
      if |items| >= 1 {
        reportOut := reportOut + [items[|items| - 1]];
      }
    }
  }

  // ----- the history is the end of the collapsed stream -----------------------------

  function Feed<T(==)>(report: seq<Item<T>>, stream: seq<Event<T>>): seq<Item<T>>
    decreases |stream|
  {
    if stream == [] then report else Feed(Set(report, stream[0]), stream[1..])
  }

  /** What one more event does to the collapsed stream, which is never cut. */
  function Extended<T(==)>(all: seq<Item<T>>, e: Event<T>): seq<Item<T>> {
    if all != [] && Repeats(all[|all| - 1], e)
    then all[|all| - 1 := all[|all| - 1].(utcReported := e.item.utcReported)]
    else all + [e.item]
  }

  lemma {:induction false} CollapsedFromOneMore<T>(head: Item<T>, rest: seq<Event<T>>, e: Event<T>)
    ensures CollapsedFrom(head, rest + [e]) == Extended(CollapsedFrom(head, rest), e)
    ensures CollapsedFrom(head, rest) != []
    decreases |rest|
  {
    var more := rest + [e];
    if rest == [] {
      assert more == [e] && more[1..] == [];
    } else {
      assert more[0] == rest[0] && more[1..] == rest[1..] + [e];
      if Repeats(head, rest[0]) {
        CollapsedFromOneMore(head.(utcReported := rest[0].item.utcReported), rest[1..], e);
      } else {
        CollapsedFromOneMore(rest[0].item, rest[1..], e);
      }
    }
  }

  lemma CollapsedOneMore<T>(stream: seq<Event<T>>, e: Event<T>)
    ensures Collapsed(stream + [e]) == Extended(Collapsed(stream), e)
  {
    if stream != [] {
      assert (stream + [e])[1..] == stream[1..] + [e];
      CollapsedFromOneMore(stream[0].item, stream[1..], e);
    }
  }

  lemma SetKeepsNewest<T>(all: seq<Item<T>>, e: Event<T>)
    ensures Set(Newest(all, MAX_ITEM), e) == Newest(Extended(all, e), MAX_ITEM)
  {
  }

  lemma {:induction false} FeedFrom<T>(past: seq<Event<T>>, stream: seq<Event<T>>)
    ensures Feed(Newest(Collapsed(past), MAX_ITEM), stream) == Newest(Collapsed(past + stream), MAX_ITEM)
    decreases |stream|
  {
    if stream == [] {
      assert past + stream == past;
    } else {
      SetKeepsNewest(Collapsed(past), stream[0]);
      CollapsedOneMore(past, stream[0]);
      FeedFrom(past + [stream[0]], stream[1..]);
      assert past + [stream[0]] + stream[1..] == past + stream;
    }
  }

  /** After any stream, defaults included, the report is the last five of the collapsed stream. */
  lemma ReportIsNewest<T>(stream: seq<Event<T>>)
    ensures Feed([], stream) == Newest(Collapsed(stream), 5)
    ensures |Feed([], stream)| <= 5
  {
    FeedFrom([], stream);
    assert [] + stream == stream;
  }

  /** An event that begins a new item: the first one, a default, or one unlike the event before it. */
  predicate Begins<T(==)>(stream: seq<Event<T>>, k: nat)
    requires k < |stream|
  {
    k == 0 || stream[k].forced || stream[k].item.content != stream[k - 1].item.content
  }

  /** Where the items of the collapsed stream begin. */
  function Starts<T(==)>(stream: seq<Event<T>>): seq<nat> {
    if stream == [] then [] else
      Starts(stream[..|stream| - 1]) + if Begins(stream, |stream| - 1) then [|stream| - 1] else []
  }

  /** The end of the item that begins as the `i`th. */
  function EndOf(starts: seq<nat>, n: nat, i: nat): nat
    requires i < |starts|
  {
    if i + 1 < |starts| then starts[i + 1] else n
  }

  /** The item stands for the events from `i` up to `j`. */
  ghost predicate StandsFor<T>(item: Item<T>, stream: seq<Event<T>>, i: nat, j: nat) {
    && i < j <= |stream|
    && item.content == stream[i].item.content == stream[j - 1].item.content
    && item.utcTime == stream[i].item.utcTime && item.utcReported == stream[j - 1].item.utcReported
  }

  ghost predicate AllStand<T>(all: seq<Item<T>>, starts: seq<nat>, stream: seq<Event<T>>) {
    |all| == |starts| && forall i :: 0 <= i < |all| ==> StandsFor(all[i], stream, starts[i], EndOf(starts, |stream|, i))
  }

  /** A repetition moves the end of the last item. */
  lemma RepeatStands<T>(all: seq<Item<T>>, starts: seq<nat>, past: seq<Event<T>>, e: Event<T>)
    requires AllStand(all, starts, past) && all != [] && all[|all| - 1].content == e.item.content
    ensures AllStand(all[|all| - 1 := all[|all| - 1].(utcReported := e.item.utcReported)], starts, past + [e])
  {
    var stream, more := past + [e], all[|all| - 1 := all[|all| - 1].(utcReported := e.item.utcReported)];
    forall i | 0 <= i < |more| ensures StandsFor(more[i], stream, starts[i], EndOf(starts, |stream|, i)) {
      assert StandsFor(all[i], past, starts[i], EndOf(starts, |past|, i));
    }
  }

  /** Any other event is an item of its own. */
  lemma AppendStands<T>(all: seq<Item<T>>, starts: seq<nat>, past: seq<Event<T>>, e: Event<T>)
    requires AllStand(all, starts, past)
    ensures AllStand(all + [e.item], starts + [|past|], past + [e])
  {
    var stream, more, after := past + [e], all + [e.item], starts + [|past|];
    forall i | 0 <= i < |more| ensures StandsFor(more[i], stream, after[i], EndOf(after, |stream|, i)) {
      if i < |all| {
        assert StandsFor(all[i], past, starts[i], EndOf(starts, |past|, i));
        assert EndOf(after, |stream|, i) == EndOf(starts, |past|, i);
      }
    }
  }

  lemma OneMoreStands<T>(all: seq<Item<T>>, starts: seq<nat>, past: seq<Event<T>>, e: Event<T>)
    requires AllStand(all, starts, past) && (past != [] ==> all != [])
    ensures AllStand(Extended(all, e), starts + if Begins(past + [e], |past|) then [|past|] else [], past + [e])
    ensures Extended(all, e) != []
  {
    if all != [] {
      var last := |all| - 1;
      assert StandsFor(all[last], past, starts[last], |past|);
      assert all[last].content == past[|past| - 1].item.content;
      assert Repeats(all[last], e) <==> !Begins(past + [e], |past|);
    }
    assert starts + [] == starts;
    hide AllStand, StandsFor;
    if Begins(past + [e], |past|) {
      AppendStands(all, starts, past, e);
    } else {
      RepeatStands(all, starts, past, e);
    }
  }

  /**
   The collapsed stream has one item for each event that begins one, with that event's content
   and time, and the report time of the last event before the next one begins.
   */
  lemma {:induction false} CollapsedIs<T>(stream: seq<Event<T>>)
    ensures AllStand(Collapsed(stream), Starts(stream), stream)
    ensures stream != [] ==> Collapsed(stream) != []
  {
    if stream != [] {
      var past, e := stream[..|stream| - 1], stream[|stream| - 1];
      CollapsedIs(past);
      assert past + [e] == stream;
      CollapsedOneMore(past, e);
      OneMoreStands(Collapsed(past), Starts(past), past, e);
      hide Collapsed, AllStand, Begins, Extended;
    }
  }

  /** What is given out has the content and the report time of the last event of the stream. */
  lemma {:induction false} LatestIsLast<T>(stream: seq<Event<T>>)
    requires stream != []
    ensures var out, last := Newest(Feed([], stream), 1), stream[|stream| - 1].item;
            |out| == 1 && out[0].content == last.content && out[0].utcReported == last.utcReported
  {
    var past, e := stream[..|stream| - 1], stream[|stream| - 1];
    ReportIsNewest(stream);
    assert past + [e] == stream;
    CollapsedOneMore(past, e);
  }

  /** In a stream without defaults no two neighbours of the history are equal. */
  lemma {:induction false} NeighboursDiffer<T>(head: Item<T>, rest: seq<Event<T>>)
    requires forall k :: 0 <= k < |rest| ==> !rest[k].forced
    ensures var all := CollapsedFrom(head, rest);
            && all != [] && all[0].content == head.content
            && forall k :: 0 < k < |all| ==> all[k - 1].content != all[k].content
    decreases |rest|
  {
    if rest != [] {
      NeighboursDiffer(if Repeats(head, rest[0]) then head.(utcReported := rest[0].item.utcReported) else rest[0].item,
                       rest[1..]);
    }
  }
}
