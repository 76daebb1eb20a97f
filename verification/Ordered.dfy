/** The keys of an ordered map, in the order in which the map is walked. */
module Ordered {

  predicate Ascending(s: seq<nat>) {
    forall a, b :: 0 <= a < b < |s| ==> s[a] < s[b]
  }

  lemma LeastExists(s: set<nat>) returns (least: nat)
    requires s != {}
    ensures least in s && forall k :: k in s ==> least <= k
  {
    var first :| first in s;
    least := first;
    if s != {first} {
      assert forall k :: k in s ==> k == first || k in s - {first};
      var other := LeastExists(s - {first});
      if other < least {
        least := other;
      }
    } else {
      assert forall k :: k in s ==> k in {first};
    }
  }

  function Least(s: set<nat>): (least: nat)
    requires s != {}
    ensures least in s && forall k :: k in s ==> least <= k
  {
    assert exists k :: k in s && forall other :: other in s ==> k <= other by {
      var least := LeastExists(s);
    }
    var k :| k in s && forall other :: other in s ==> k <= other;
    k
  }

  function InOrder(s: set<nat>): (keys: seq<nat>)
    ensures Ascending(keys)
    ensures forall k :: k in keys <==> k in s
  {
    if s == {} then [] else
    var least := Least(s);
    assert forall k :: k in InOrder(s - {least}) ==> least < k;
    [least] + InOrder(s - {least})
  }

  lemma FirstIn(s: seq<nat>)
    ensures s == [] || s[0] in s
  {
  }

  /** There is one ascending way to write down a set. */
  lemma {:induction false} AscendingUnique(a: seq<nat>, b: seq<nat>)
    requires Ascending(a) && Ascending(b) && forall k :: k in a <==> k in b
    ensures a == b
  {
    if a == [] {
      FirstIn(b);
    } else if b == [] {
      FirstIn(a);
    } else {
      var n, m := |a| - 1, |b| - 1;
      assert a[n] in b && b[m] in a;
      assert forall k :: k in a <==> k in a[..n] || k == a[n];
      assert forall k :: k in b <==> k in b[..m] || k == b[m];
      AscendingUnique(a[..n], b[..m]);
    }
  }
}
