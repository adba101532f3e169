/** The ascending order in which `std::set` and `std::map` are traversed, and the
    outcome of sorting and deduplicating a vector of addresses. */
module OrderedSets {

  ghost predicate Ascending(q: seq<nat>) {
    forall i, j :: 0 <= i < j < |q| ==> q[i] < q[j]
  }

  /** An ascending list is determined by its elements. */
  lemma {:induction false} AscendingIsUnique(p: seq<nat>, q: seq<nat>)
    requires Ascending(p) && Ascending(q)
    requires forall x :: x in p <==> x in q
    ensures p == q
  {
    assert q != [] ==> q[0] in p;
    if p != [] {
      assert p[0] in q;
      assert q[0] in p;
      assert p[0] == q[0];
      forall x ensures x in p[1..] <==> x in q[1..] {
        assert x in p[1..] <==> x in p && x != p[0];
        assert x in q[1..] <==> x in q && x != q[0];
      }
      AscendingIsUnique(p[1..], q[1..]);
      assert p == [p[0]] + p[1..] && q == [q[0]] + q[1..];
    }
  }

  lemma {:induction false} HasLeast(s: set<nat>, any: nat) returns (m: nat)
    requires any in s
    ensures m in s && forall x :: x in s ==> m <= x
    decreases any
  {
    m := any;
    if k :| k in s && k < any {
      m := HasLeast(s, k);
    }
  }

  lemma {:induction false} ListingExists(s: set<nat>) returns (q: seq<nat>)
    ensures Ascending(q) && |q| == |s| && forall x :: x in q <==> x in s
  {
    if s == {} {
      q := [];
    } else {
      var any :| any in s;
      var m := HasLeast(s, any);
      var rest := ListingExists(s - {m});
      q := [m] + rest;
      assert forall i :: 0 <= i < |rest| ==> rest[i] in rest;
      assert forall x :: x in s <==> x == m || x in rest;
    }
  }

  ghost predicate Lists(q: seq<nat>, s: set<nat>) {
    Ascending(q) && |q| == |s| && forall x :: x in q <==> x in s
  }

  /** The elements of a set, smallest first. */
  ghost function Elements(s: set<nat>): (q: seq<nat>)
    ensures Lists(q, s)
  {
    assert exists q :: Lists(q, s) by {
      var q := ListingExists(s);
      assert Lists(q, s);
    }
    var q :| Lists(q, s);
    q
  }

  /** Walks the set from its smallest element up, as an ordered container is traversed. */
  method Traverse(s: set<nat>) returns (q: seq<nat>)
    ensures q == Elements(s)
  {
    q := [];
    var rest := s;
    while rest != {}
      invariant rest <= s && Ascending(q)
      invariant forall x :: x in s <==> x in q || x in rest
      invariant forall x, y :: x in q && y in rest ==> x < y
    {
      ghost var any :| any in rest;
      ghost var least := HasLeast(rest, any);
      var m :| m in rest && forall x :: x in rest ==> m <= x;
      assert forall i :: 0 <= i < |q| ==> q[i] in q;
      q, rest := q + [m], rest - {m};
    }
    AscendingIsUnique(q, Elements(s));
  }
}
