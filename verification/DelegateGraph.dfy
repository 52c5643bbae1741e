/** The graph of delegate lists: paths, reachability, cycles, and what removing nodes does to them. */
module DelegateGraph {
  import opened Common

  type Lists = map<Address, seq<Address>>

  /** A missing list reads as empty. */
  function Delegates(lists: Lists, a: Address): seq<Address> { if a in lists then lists[a] else [] }

  ghost predicate Path(lists: Lists, p: seq<Address>) {
    && p != []
    && forall i :: 0 <= i < |p| - 1 ==> p[i + 1] in Delegates(lists, p[i])
  }

  ghost predicate Joins(lists: Lists, p: seq<Address>, x: Address, y: Address) {
    Path(lists, p) && p[0] == x && p[|p| - 1] == y
  }

  /** There is a path from x to y, possibly of no edges. */
  ghost predicate Reaches(lists: Lists, x: Address, y: Address) { exists p :: Joins(lists, p, x, y) }

  /** Some node of the list reaches y. */
  ghost predicate ReachedFrom(lists: Lists, ds: seq<Address>, y: Address) {
    exists i :: 0 <= i < |ds| && Reaches(lists, ds[i], y)
  }

  /** There is a path of at least one edge. */
  ghost predicate Below(lists: Lists, x: Address, y: Address) { ReachedFrom(lists, Delegates(lists, x), y) }

  ghost predicate CycleFrom(lists: Lists, a: Address) { exists x :: Reaches(lists, a, x) && Below(lists, x, x) }

  ghost predicate Acyclic(lists: Lists) { forall x :: !Below(lists, x, x) }

  // ------------------------------------------------------------------ paths

  lemma ReachesSelf(lists: Lists, x: Address)
    ensures Reaches(lists, x, x)
  {
    assert Joins(lists, [x], x, x);
  }

  lemma ReachesTrans(lists: Lists, x: Address, y: Address, z: Address)
    requires Reaches(lists, x, y) && Reaches(lists, y, z)
    ensures Reaches(lists, x, z)
  {
    var p :| Joins(lists, p, x, y);
    var q :| Joins(lists, q, y, z);
    var r := p + q[1..];
    forall i | 0 <= i < |r| - 1
      ensures r[i + 1] in Delegates(lists, r[i])
    {
      if i >= |p| - 1 {
        assert r[i] == q[i - |p| + 1] && r[i + 1] == q[i - |p| + 2];
      }
    }
    assert Joins(lists, r, x, z);
  }

  lemma EdgeReaches(lists: Lists, x: Address, y: Address)
    requires y in Delegates(lists, x)
    ensures Reaches(lists, x, y) && Below(lists, x, y)
  {
    assert Joins(lists, [x, y], x, y);
    var i :| 0 <= i < |Delegates(lists, x)| && Delegates(lists, x)[i] == y;
    ReachesSelf(lists, y);
  }

  /** To reach a node is to be it or to have it below. */
  lemma ReachesOrBelow(lists: Lists, x: Address, y: Address)
    ensures Reaches(lists, x, y) <==> x == y || Below(lists, x, y)
  {
    if Reaches(lists, x, y) && x != y {
      var p :| Joins(lists, p, x, y);
      assert p[1] in Delegates(lists, p[0]);
      var i :| 0 <= i < |Delegates(lists, x)| && Delegates(lists, x)[i] == p[1];
      assert Joins(lists, p[1..], p[1], y);
    }
    if Below(lists, x, y) {
      var i :| 0 <= i < |Delegates(lists, x)| && Reaches(lists, Delegates(lists, x)[i], y);
      EdgeReaches(lists, x, Delegates(lists, x)[i]);
      ReachesTrans(lists, x, Delegates(lists, x)[i], y);
    }
    ReachesSelf(lists, x);
  }

  lemma BelowTrans(lists: Lists, x: Address, y: Address, z: Address)
    requires Below(lists, x, y) && Reaches(lists, y, z)
    ensures Below(lists, x, z)
  {
    var i :| 0 <= i < |Delegates(lists, x)| && Reaches(lists, Delegates(lists, x)[i], y);
    ReachesTrans(lists, Delegates(lists, x)[i], y, z);
  }

  /** Every node of a path reaches its end. */
  lemma SuffixReaches(lists: Lists, p: seq<Address>, i: nat)
    requires Path(lists, p) && i < |p|
    ensures Reaches(lists, p[i], p[|p| - 1])
  {
    assert Joins(lists, p[i..], p[i], p[|p| - 1]);
  }

  // ------------------------------------------------------------------ removing what some nodes reach

  /** The lists m are the lists s without those of everything reached from ds. */
  ghost predicate Pruned(s: Lists, ds: seq<Address>, m: Lists) {
    && (forall x :: x in m <==> x in s && !ReachedFrom(s, ds, x))
    && (forall x :: x in m ==> m[x] == s[x])
  }

  lemma PathStays(s: Lists, m: Lists, p: seq<Address>)
    requires Path(m, p) && forall x :: x in m ==> x in s && m[x] == s[x]
    ensures Path(s, p)
  {}

  lemma SmallerReaches(s: Lists, m: Lists, x: Address, y: Address)
    requires Reaches(m, x, y) && forall x :: x in m ==> x in s && m[x] == s[x]
    ensures Reaches(s, x, y)
  {
    var p :| Joins(m, p, x, y);
    PathStays(s, m, p);
    assert Joins(s, p, x, y);
  }

  /** A path to a node that was not reached avoids everything that was. */
  lemma PrunedPath(s: Lists, ds: seq<Address>, m: Lists, p: seq<Address>)
    requires Pruned(s, ds, m) && Path(s, p) && !ReachedFrom(s, ds, p[|p| - 1])
    ensures Path(m, p)
  {
    forall i | 0 <= i < |p| - 1
      ensures p[i + 1] in Delegates(m, p[i])
    {
      SuffixReaches(s, p, i);
      NotReached(s, ds, p[i], p[|p| - 1]);
    }
  }

  lemma NotReached(s: Lists, ds: seq<Address>, x: Address, y: Address)
    requires Reaches(s, x, y) && !ReachedFrom(s, ds, y)
    ensures !ReachedFrom(s, ds, x)
  {
    if ReachedFrom(s, ds, x) {
      var i :| 0 <= i < |ds| && Reaches(s, ds[i], x);
      ReachesTrans(s, ds[i], x, y);
    }
  }

  /** Reachability outside the pruned part is what it was. */
  lemma PrunedReaches(s: Lists, ds: seq<Address>, m: Lists, x: Address, y: Address)
    requires Pruned(s, ds, m) && !ReachedFrom(s, ds, y)
    ensures Reaches(m, x, y) <==> Reaches(s, x, y)
  {
    if Reaches(s, x, y) {
      var p :| Joins(s, p, x, y);
      PrunedPath(s, ds, m, p);
      assert Joins(m, p, x, y);
    }
    if Reaches(m, x, y) {
      SmallerReaches(s, m, x, y);
    }
  }

  lemma ReachedFromSnoc(s: Lists, ds: seq<Address>, d: Address, y: Address)
    ensures ReachedFrom(s, ds + [d], y) <==> ReachedFrom(s, ds, y) || Reaches(s, d, y)
  {
    var more := ds + [d];
    if ReachedFrom(s, ds, y) {
      var i :| 0 <= i < |ds| && Reaches(s, ds[i], y);
      assert more[i] == ds[i];
    }
    assert more[|ds|] == d;
  }

  /** Pruning node after node prunes them all. */
  lemma PrunedMore(s: Lists, ds: seq<Address>, m: Lists, d: Address, t: Lists)
    requires Pruned(s, ds, m) && Pruned(m, [d], t)
    ensures Pruned(s, ds + [d], t)
  {
    forall x
      ensures x in t <==> x in s && !ReachedFrom(s, ds + [d], x)
    {
      ReachedFromSnoc(s, ds, d, x);
      ReachedFromSnoc(m, [], d, x);
      assert [] + [d] == [d];
      if !ReachedFrom(s, ds, x) {
        PrunedReaches(s, ds, m, d, x);
      }
    }
  }
}
