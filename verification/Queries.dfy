/** ORDER BY and LIMIT over the ids of a table, in a loop. */
module Queries {
  import opened Common

  type Order = (nat, nat) -> bool

  ghost predicate TotalPreorder(ids: set<nat>, before: Order) {
    && (forall a, b :: a in ids && b in ids ==> before(a, b) || before(b, a))
    && (forall a, b, c :: a in ids && b in ids && c in ids && before(a, b) && before(b, c) ==> before(a, c))
  }

  predicate Ordered(s: seq<nat>, before: Order) {
    forall i, j :: 0 <= i < j < |s| ==> before(s[i], s[j])
  }

  /** The first `limit` of `ids` in the given order. */
  ghost predicate AreFirst(ids: set<nat>, before: Order, limit: nat, s: seq<nat>) {
    && Distinct(s) && |s| <= limit && Ordered(s, before)
    && (forall id :: id in s ==> id in ids)
    && (forall id :: id in ids && id !in s ==> |s| == limit && forall a :: a in s ==> before(a, id))
  }

  method TakeFirst(ids: set<nat>, before: Order, limit: nat) returns (s: seq<nat>)
    requires TotalPreorder(ids, before)
    ensures AreFirst(ids, before, limit, s)
    ensures |ids| <= limit ==> forall id :: id in ids ==> id in s
  {
    var rest := ids;
    s := [];
    while rest != {} && |s| < limit
      invariant rest <= ids && Distinct(s) && Ordered(s, before)
      invariant |s| <= limit && |s| + |rest| == |ids|
      invariant forall id :: id in s <==> id in ids && id !in rest
      invariant forall a, b :: a in s && b in rest ==> before(a, b)
      decreases rest
    {
      var first := First(rest, before);
      s := s + [first];
      rest := rest - {first};
    }
  }

  method First(ids: set<nat>, before: Order) returns (first: nat)
    requires ids != {} && TotalPreorder(ids, before)
    ensures first in ids && forall id :: id in ids ==> before(first, id)
  {
    first :| first in ids;
    var rest := ids - {first};
    assert before(first, first);
    while rest != {}
      invariant rest <= ids && first in ids
      invariant forall id :: id in ids && id !in rest ==> before(first, id)
      decreases rest
    {
      var id :| id in rest;
      if !before(first, id) {
        assert before(id, id);
        first := id;
      }
      rest := rest - {id};
    }
  }
}
