/**
 Walking an ordered map: its keys in ascending order, and the minimum a loop finds when it
 uses zero for "nothing found yet".
 */
module Ordered {

  predicate Least(m: nat, s: set<nat>) {
    m in s && forall x :: x in s ==> m <= x
  }

  lemma LeastExists(s: set<nat>) returns (m: nat)
    requires s != {}
    ensures Least(m, s)
  {
    m :| m in s;
    if s != {m} {
      assert s - {m} != {};
      var other := LeastExists(s - {m});
      assert forall x :: x in s ==> x == m || x in s - {m};
      if other < m { m := other; }
    }
  }

  /** The key an iterator at `begin()` points to. */
  function MinOf(s: set<nat>): (m: nat)
    requires s != {}
    ensures m in s && forall x :: x in s ==> m <= x
  {
    assert exists m :: Least(m, s) by { var m := LeastExists(s); }
    var m :| Least(m, s);
    m
  }

  ghost predicate StrictlyAscending(ids: seq<nat>) {
    forall i, j :: 0 <= i < j < |ids| ==> ids[i] < ids[j]
  }

  // ----- the zero-sentinel minimum ------------------------------------------------

  /** A loop that keeps the smallest value seen, taking 0 to mean that there is none yet. */
  ghost function SentinelMin(m: nat, xs: seq<nat>): (least: nat)
    ensures least == m || least in xs
    decreases xs
  {
    if xs == [] then m
    else SentinelMin(if m == 0 || m > xs[0] then xs[0] else m, xs[1..])
  }

  ghost predicate IsMin(m: nat, xs: seq<nat>) {
    m in xs && forall x :: x in xs ==> m <= x
  }

  lemma {:induction false} SentinelOfPositive(m: nat, xs: seq<nat>)
    requires xs != [] && 0 !in xs
    ensures IsMin(SentinelMin(m, xs), if m == 0 then xs else [m] + xs)
    decreases xs
  {
    var next := if m == 0 || m > xs[0] then xs[0] else m;
    assert xs[0] in xs;
    if |xs| > 1 {
      SentinelOfPositive(next, xs[1..]);
      var r := SentinelMin(next, xs[1..]);
      assert xs == [xs[0]] + xs[1..];
      assert next in [next] + xs[1..];
      assert xs[0] in xs && m in [m] + xs;
    } else {
      assert xs == [xs[0]];
    }
  }

  lemma {:induction false} SentinelZero(m: nat, xs: seq<nat>)
    requires xs != []
    ensures SentinelMin(m, xs) == 0 <==> xs[|xs| - 1] == 0
    decreases xs
  {
    if |xs| > 1 {
      SentinelZero(if m == 0 || m > xs[0] then xs[0] else m, xs[1..]);
    } else {
      assert xs[1..] == [];
    }
  }

  /** Such a loop finds the true minimum exactly when no zero is overwritten by a later value. */
  lemma {:induction false} SentinelMinIff(xs: seq<nat>)
    requires xs != []
    ensures IsMin(SentinelMin(0, xs), xs) <==> (0 !in xs || xs[|xs| - 1] == 0)
  {
    SentinelZero(0, xs);
    if 0 !in xs {
      SentinelOfPositive(0, xs);
    }
  }

  // ----- over an ordered map --------------------------------------------------------

  /** The values of the keys `todo`, in the order of the keys. */
  ghost function InOrder(values: map<nat, nat>, todo: set<nat>): seq<nat>
    requires todo <= values.Keys
    decreases |todo|
  {
    if todo == {} then [] else [values[MinOf(todo)]] + InOrder(values, todo - {MinOf(todo)})
  }

  lemma {:induction false} InOrderIs(values: map<nat, nat>, todo: set<nat>)
    requires todo <= values.Keys
    ensures var xs := InOrder(values, todo);
            && (forall k :: k in todo ==> values[k] in xs)
            && (forall i :: 0 <= i < |xs| ==> exists k :: k in todo && values[k] == xs[i])
    decreases |todo|
  {
    if todo != {} {
      InOrderIs(values, todo - {MinOf(todo)});
    }
  }

  /** What the loop finds over a whole map: zero, or one of the values. */
  ghost function LoopMin(values: map<nat, nat>): (least: nat)
    ensures least == 0 || exists k :: k in values && values[k] == least
  {
    InOrderIs(values, values.Keys);
    SentinelMin(0, InOrder(values, values.Keys))
  }

  ghost predicate IsLeast(least: nat, values: map<nat, nat>) {
    (exists k :: k in values && values[k] == least) && forall k :: k in values ==> least <= values[k]
  }

  /** Some value is zero, and that of the greatest key is not. */
  ghost predicate ForgetsZero(values: map<nat, nat>) {
    exists zero, last :: zero in values && last in values && values[zero] == 0 && values[last] != 0
      && forall k :: k in values ==> k <= last
  }

  lemma GreatestExists(s: set<nat>) returns (last: nat)
    requires s != {}
    ensures last in s && forall x :: x in s ==> x <= last
  {
    last :| last in s;
    if s != {last} {
      assert s - {last} != {};
      var other := GreatestExists(s - {last});
      assert forall x :: x in s ==> x == last || x in s - {last};
      if other > last { last := other; }
    }
  }

  lemma {:induction false} LastInOrder(values: map<nat, nat>, todo: set<nat>, last: nat)
    requires todo <= values.Keys && last in todo && forall k :: k in todo ==> k <= last
    ensures var xs := InOrder(values, todo); xs != [] && xs[|xs| - 1] == values[last]
    decreases |todo|
  {
    var k := MinOf(todo);
    if todo - {k} == {} {
      assert todo == {k};
    } else {
      var other :| other in todo - {k};
      assert k < other <= last;
      LastInOrder(values, todo - {k}, last);
    }
  }

  lemma ForgetsIff(values: map<nat, nat>, last: nat)
    requires last in values && forall k :: k in values ==> k <= last
    ensures ForgetsZero(values) <==> values[last] != 0 && exists zero :: zero in values && values[zero] == 0
  {
    if ForgetsZero(values) {
      var j :| j in values && values[j] != 0 && forall k :: k in values ==> k <= j;
      assert j == last;
    }
  }

  /**
   The loop finds the least value of a map exactly if it forgets no zero; and what it finds when
   it forgets one is positive.
   */
  lemma LoopMinIff(values: map<nat, nat>)
    requires values != map[]
    ensures IsLeast(LoopMin(values), values) <==> !ForgetsZero(values)
    ensures ForgetsZero(values) ==> LoopMin(values) > 0
  {
    var xs := InOrder(values, values.Keys);
    var last := GreatestExists(values.Keys);
    LastInOrder(values, values.Keys, last);
    InOrderIs(values, values.Keys);
    ForgetsIff(values, last);
    hide InOrder, ForgetsZero;
    SentinelZero(0, xs);
    if 0 in xs {
      var zero :| zero in values && values[zero] == 0;
      assert IsLeast(LoopMin(values), values) <==> LoopMin(values) == 0;
    } else {
      SentinelOfPositive(0, xs);
      assert forall k :: k in values ==> values[k] in xs;
    }
  }
}
