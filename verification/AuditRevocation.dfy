/** What revocation removes, when it terminates, and what every run keeps. */
module AuditRevocation {
  import opened Common
  import opened DelegateGraph
  import opened AuditDelegation

  // ------------------------------------------------------------------ what is removed

  /** The keys that remain are those of nobody reached from the delegates. */
  ghost predicate Cut(s: Grants, ds: seq<Address>, keys: map<Address, Key>) {
    && (forall x :: x in keys <==> x in s.keys && !ReachedFrom(s.lists, ds, x))
    && (forall x :: x in keys ==> keys[x] == s.keys[x])
  }

  /** The loop removes keys and lists of everything reached from the delegates. */
  lemma {:induction false} DescendAllRemoves(s: Grants, ds: seq<Address>, depth: nat)
    requires DescendAll(s, ds, depth).Some?
    ensures var t := DescendAll(s, ds, depth).value;
      Pruned(s.lists, ds, t.lists) && Cut(s, ds, t.keys)
    decreases depth, |ds| + 1
  {
    if ds != [] {
      var before, d := ds[..|ds| - 1], ds[|ds| - 1];
      DescendAllRemoves(s, before, depth);
      var m := DescendAll(s, before, depth).value;
      var n := m.(keys := m.keys - {d});
      DescendRemoves(n, d, depth);
      assert ds == before + [d];
      PrunedMore(s.lists, before, m.lists, d, Descend(n, d, depth).value.lists);
      CutMore(s, before, m, d, Descend(n, d, depth).value.keys);
    }
  }

  lemma CutMore(s: Grants, ds: seq<Address>, m: Grants, d: Address, keys: map<Address, Key>)
    requires Pruned(s.lists, ds, m.lists) && Cut(s, ds, m.keys)
    requires Cut(m.(keys := m.keys - {d}), Delegates(m.lists, d), keys)
    ensures Cut(s, ds + [d], keys)
  {
    forall x
      ensures x in keys <==> x in s.keys && !ReachedFrom(s.lists, ds + [d], x)
    {
      ReachedFromSnoc(s.lists, ds, d, x);
      ReachesOrBelow(m.lists, d, x);
      if !ReachedFrom(s.lists, ds, x) {
        PrunedReaches(s.lists, ds, m.lists, d, x);
      }
    }
  }

  /** One call removes the lists of all it reaches and the keys of all below. */
  lemma {:induction false} DescendRemoves(s: Grants, a: Address, depth: nat)
    requires Descend(s, a, depth).Some?
    ensures var t := Descend(s, a, depth).value;
      Pruned(s.lists, [a], t.lists) && Cut(s, Delegates(s.lists, a), t.keys)
    decreases depth, 0
  {
    var ds := Delegates(s.lists, a);
    DescendAllRemoves(s, ds, depth - 1);
    forall x
      ensures ReachedFrom(s.lists, [a], x) <==> x == a || ReachedFrom(s.lists, ds, x)
    {
      ReachedFromSnoc(s.lists, [], a, x);
      assert [] + [a] == [a];
      ReachesOrBelow(s.lists, a, x);
    }
  }

  /**
   A successful revocation removes the keys and lists of exactly the revoked auditor and everyone
   reachable from it through the lists, and leaves every other key and list as it was.
   */
  lemma RevokeRemoves(s: Grants, t: Grants, e: Env, admin: Address, auditor: Address, depth: nat, x: Address)
    requires Revoke(s, e, admin, auditor, depth) == Ok(t)
    ensures x in t.keys <==> x in s.keys && !Reaches(s.lists, auditor, x)
    ensures x in t.lists <==> x in s.lists && !Reaches(s.lists, auditor, x)
    ensures x in t.keys ==> t.keys[x] == s.keys[x]
    ensures x in t.lists ==> t.lists[x] == s.lists[x]
  {
    DescendRemoves(s, auditor, depth);
    ReachesOrBelow(s.lists, auditor, x);
    ReachedFromSnoc(s.lists, [], auditor, x);
    assert [] + [auditor] == [auditor];
  }

  // ------------------------------------------------------------------ when it terminates

  /** The nodes with a list that a node reaches: what a descent can still go through. */
  ghost function Ahead(lists: Lists, a: Address): set<Address> { set x | x in lists && Reaches(lists, a, x) }

  ghost predicate Smaller(m: Lists, s: Lists) { forall x :: x in m ==> x in s && m[x] == s[x] }

  lemma SmallerAhead(m: Lists, s: Lists, a: Address)
    requires Smaller(m, s)
    ensures |Ahead(m, a)| <= |Ahead(s, a)|
    ensures CycleFrom(m, a) ==> CycleFrom(s, a)
  {
    forall x | x in Ahead(m, a)
      ensures x in Ahead(s, a)
    {
      SmallerReaches(s, m, a, x);
    }
    SubsetSize(Ahead(m, a), Ahead(s, a));
    if x :| Reaches(m, a, x) && Below(m, x, x) {
      SmallerReaches(s, m, a, x);
      var i :| 0 <= i < |Delegates(m, x)| && Reaches(m, Delegates(m, x)[i], x);
      SmallerReaches(s, m, Delegates(m, x)[i], x);
    }
  }

  lemma {:induction false} SubsetSize<T>(x: set<T>, y: set<T>)
    requires x <= y
    ensures |x| <= |y|
  {
    if x != {} {
      var a :| a in x;
      SubsetSize(x - {a}, y - {a});
    }
  }

  /** Without a cycle, each step down leaves its starting point behind. */
  lemma StepDown(lists: Lists, a: Address, d: Address)
    requires d in Delegates(lists, a) && !CycleFrom(lists, a)
    ensures !CycleFrom(lists, d) && |Ahead(lists, d)| < |Ahead(lists, a)|
  {
    EdgeReaches(lists, a, d);
    ReachesSelf(lists, a);
    if x :| Reaches(lists, d, x) && Below(lists, x, x) {
      ReachesTrans(lists, a, d, x);
    }
    if Reaches(lists, d, a) {
      BelowTrans(lists, a, d, a);
    }
    forall x | x in Ahead(lists, d)
      ensures x in Ahead(lists, a) - {a}
    {
      ReachesTrans(lists, a, d, x);
    }
    SubsetSize(Ahead(lists, d), Ahead(lists, a) - {a});
  }

  lemma {:induction false} DescendSucceeds(s: Grants, a: Address, depth: nat)
    requires !CycleFrom(s.lists, a) && |Ahead(s.lists, a)| < depth
    ensures Descend(s, a, depth).Some?
    decreases depth, 0
  {
    var ds := Delegates(s.lists, a);
    forall i | 0 <= i < |ds|
      ensures !CycleFrom(s.lists, ds[i]) && |Ahead(s.lists, ds[i])| < depth - 1
    {
      StepDown(s.lists, a, ds[i]);
    }
    DescendAllSucceeds(s, ds, depth - 1);
  }

  lemma {:induction false} DescendAllSucceeds(s: Grants, ds: seq<Address>, depth: nat)
    requires forall i :: 0 <= i < |ds| ==> !CycleFrom(s.lists, ds[i]) && |Ahead(s.lists, ds[i])| < depth
    ensures DescendAll(s, ds, depth).Some?
    decreases depth, |ds| + 1
  {
    if ds != [] {
      var before, d := ds[..|ds| - 1], ds[|ds| - 1];
      DescendAllSucceeds(s, before, depth);
      DescendAllRemoves(s, before, depth);
      var m := DescendAll(s, before, depth).value;
      SmallerAhead(m.lists, s.lists, d);
      DescendSucceeds(m.(keys := m.keys - {d}), d, depth);
    }
  }

  lemma CycleMet(lists: Lists, ds: seq<Address>, x: Address)
    requires ReachedFrom(lists, ds, x) && Below(lists, x, x)
    ensures exists i :: 0 <= i < |ds| && CycleFrom(lists, ds[i])
  {
    var i :| 0 <= i < |ds| && Reaches(lists, ds[i], x);
    assert CycleFrom(lists, ds[i]);
  }

  lemma {:induction false} DescendNoCycle(s: Grants, a: Address, depth: nat)
    requires Descend(s, a, depth).Some?
    ensures !CycleFrom(s.lists, a)
    decreases depth, 0
  {
    var ds := Delegates(s.lists, a);
    if x :| Reaches(s.lists, a, x) && Below(s.lists, x, x) {
      ReachesOrBelow(s.lists, a, x);
      CycleMet(s.lists, ds, x);
      DescendAllNoCycle(s, ds, depth - 1);
    }
  }

  lemma {:induction false} DescendAllNoCycle(s: Grants, ds: seq<Address>, depth: nat)
    requires DescendAll(s, ds, depth).Some?
    ensures forall i :: 0 <= i < |ds| ==> !CycleFrom(s.lists, ds[i])
    decreases depth, |ds| + 1
  {
    if ds != [] {
      var before, d := ds[..|ds| - 1], ds[|ds| - 1];
      DescendAllNoCycle(s, before, depth);
      DescendAllRemoves(s, before, depth);
      var m := DescendAll(s, before, depth).value;
      DescendNoCycle(m.(keys := m.keys - {d}), d, depth);
      if CycleFrom(s.lists, d) {
        CycleStays(s.lists, before, m.lists, d);
      }
      assert forall i :: 0 <= i < |before| ==> before[i] == ds[i];
    }
  }

  /** A cycle is not pruned away by calls that met none. */
  lemma CycleStays(s: Lists, ds: seq<Address>, m: Lists, d: Address)
    requires Pruned(s, ds, m) && CycleFrom(s, d) && forall i :: 0 <= i < |ds| ==> !CycleFrom(s, ds[i])
    ensures CycleFrom(m, d)
  {
    var x :| Reaches(s, d, x) && Below(s, x, x);
    if ReachedFrom(s, ds, x) {
      CycleMet(s, ds, x);
      assert false;
    }
    PrunedReaches(s, ds, m, d, x);
    var i :| 0 <= i < |Delegates(s, x)| && Reaches(s, Delegates(s, x)[i], x);
    PrunedReaches(s, ds, m, Delegates(s, x)[i], x);
    assert x in s && x in m;
  }

  /**
   Revocation terminates, for any call depth above the number of lists, exactly when no cycle is
   reachable from the auditor; with a reachable cycle no call depth is enough.
   */
  lemma RevocationTerminatesIff(s: Grants, a: Address)
    ensures !CycleFrom(s.lists, a) ==> forall depth: nat :: depth > |s.lists| ==> Descend(s, a, depth).Some?
    ensures CycleFrom(s.lists, a) ==> forall depth: nat :: Descend(s, a, depth).None?
  {
    if !CycleFrom(s.lists, a) {
      SubsetSize(Ahead(s.lists, a), s.lists.Keys);
      forall depth: nat | depth > |s.lists|
        ensures Descend(s, a, depth).Some?
      {
        DescendSucceeds(s, a, depth);
      }
    } else {
      forall depth: nat
        ensures Descend(s, a, depth).None?
      {
        if Descend(s, a, depth).Some? {
          DescendNoCycle(s, a, depth);
        }
      }
    }
  }

  // ------------------------------------------------------------------ parents and lists

  /** Every key that names a parent is in that parent's list. */
  ghost predicate ParentsListed(s: Grants) {
    forall d :: d in s.keys && s.keys[d].parent.Some? ==> d in Delegates(s.lists, s.keys[d].parent.value)
  }

  datatype Call =
    | GenerateCall(self: Address, auditor: Address, expiration: nat, bytes: Digest)
    | DelegateCall(auditor: Address, delegate: Address, scope: Scope, expiration: nat, bytes: Digest)
    | ExtendCall(auditor: Address, delegate: Address, expiration: nat, bytes: Digest)
    | RefreshCall(admin: Address, auditor: Address, expiration: nat, bytes: Digest)
    | PolicyCall(admin: Address, auditor: Address, allow: bool, scope: Scope, expiration: nat)
    | RevokeCall(admin: Address, auditor: Address, depth: nat)

  datatype Event = Event(env: Env, call: Call)

  function Try(s: Grants, ev: Event): Result<Grants> {
    var e := ev.env;
    match ev.call
    case GenerateCall(self, auditor, expiration, bytes) => Generate(s, e, self, auditor, expiration, bytes)
    case DelegateCall(auditor, delegate, scope, expiration, bytes) =>
      Delegate(s, e, auditor, delegate, scope, expiration, bytes)
    case ExtendCall(auditor, delegate, expiration, bytes) => Extend(s, e, auditor, delegate, expiration, bytes)
    case RefreshCall(admin, auditor, expiration, bytes) => Refresh(s, e, admin, auditor, expiration, bytes)
    case PolicyCall(admin, auditor, allow, scope, expiration) => SetPolicy(s, e, admin, auditor, allow, scope, expiration)
    case RevokeCall(admin, auditor, depth) => Revoke(s, e, admin, auditor, depth)
  }

  /** What is stored after a call: a fault leaves the grants as they were. */
  function After(s: Grants, outcome: Result<Grants>): Grants { if outcome.Ok? then outcome.value else s }

  function Step(s: Grants, ev: Event): Grants { After(s, Try(s, ev)) }

  function Run(s: Grants, events: seq<Event>): Grants {
    if events == [] then s else Step(Run(s, events[..|events| - 1]), events[|events| - 1])
  }

  lemma RevokeKeepsParents(s: Grants, t: Grants, e: Env, admin: Address, auditor: Address, depth: nat)
    requires ParentsListed(s) && Revoke(s, e, admin, auditor, depth) == Ok(t)
    ensures ParentsListed(t)
    ensures forall d :: d in t.keys && t.keys[d].parent.Some? ==> !Reaches(s.lists, auditor, t.keys[d].parent.value)
  {
    forall d | d in t.keys && t.keys[d].parent.Some?
      ensures d in Delegates(t.lists, t.keys[d].parent.value) && !Reaches(s.lists, auditor, t.keys[d].parent.value)
    {
      var p := t.keys[d].parent.value;
      RevokeRemoves(s, t, e, admin, auditor, depth, d);
      RevokeRemoves(s, t, e, admin, auditor, depth, p);
      EdgeReaches(s.lists, p, d);
      if Reaches(s.lists, auditor, p) {
        ReachesTrans(s.lists, auditor, p, d);
      }
    }
  }

  lemma StepKeepsParents(s: Grants, ev: Event)
    requires ParentsListed(s)
    ensures ParentsListed(Step(s, ev))
  {
    if Try(s, ev).Ok? && ev.call.RevokeCall? {
      RevokeKeepsParents(s, Step(s, ev), ev.env, ev.call.admin, ev.call.auditor, ev.call.depth);
    }
  }

  /** In every run, whatever the graph. */
  lemma {:induction false} RunKeepsParents(events: seq<Event>)
    ensures ParentsListed(Run(NOTHING, events))
  {
    if events != [] {
      RunKeepsParents(events[..|events| - 1]);
      StepKeepsParents(Run(NOTHING, events[..|events| - 1]), events[|events| - 1]);
    }
  }

  /** A chain of surviving keys, each naming the next as its parent; the last may have no key. */
  ghost predicate ParentChain(keys: map<Address, Key>, chain: seq<Address>) {
    forall i :: 0 <= i < |chain| - 1 ==> chain[i] in keys && keys[chain[i]].parent == Some(chain[i + 1])
  }

  /** After a revocation no surviving parent chain passes through the revoked auditor or anyone below it. */
  lemma NoChainThroughRevoked(events: seq<Event>, e: Env, admin: Address, auditor: Address, depth: nat, t: Grants,
                              chain: seq<Address>, i: nat)
    requires Revoke(Run(NOTHING, events), e, admin, auditor, depth) == Ok(t)
    requires ParentChain(t.keys, chain) && i < |chain| && chain[0] in t.keys
    ensures !Reaches(Run(NOTHING, events).lists, auditor, chain[i])
  {
    RunKeepsParents(events);
    RevokeKeepsParents(Run(NOTHING, events), t, e, admin, auditor, depth);
    if i == 0 {
      RevokeRemoves(Run(NOTHING, events), t, e, admin, auditor, depth, chain[0]);
    } else {
      assert t.keys[chain[i - 1]].parent == Some(chain[i]);
    }
  }

  /** The calls that write a key under an address that has none. */
  predicate GrantsTo(c: Call, x: Address) {
    (c.GenerateCall? && c.auditor == x) || (c.DelegateCall? && c.delegate == x)
  }

  lemma StepKeepsOut(s: Grants, ev: Event, x: Address)
    requires x !in s.keys && !GrantsTo(ev.call, x)
    ensures x !in Step(s, ev).keys
  {
    if Try(s, ev).Ok? && ev.call.RevokeCall? {
      RevokeRemoves(s, Step(s, ev), ev.env, ev.call.admin, ev.call.auditor, ev.call.depth, x);
    }
  }

  /** The revoked auditor and everyone below it have no access until someone grants them a key anew. */
  lemma {:induction false} RevokedStayOut(s: Grants, t: Grants, e: Env, admin: Address, auditor: Address, depth: nat,
                                          events: seq<Event>, x: Address, ledger: nat)
    requires Revoke(s, e, admin, auditor, depth) == Ok(t) && Reaches(s.lists, auditor, x)
    requires forall i :: 0 <= i < |events| ==> !GrantsTo(events[i].call, x)
    ensures x !in Run(t, events).keys && !HasAccess(Run(t, events), ledger, x)
  {
    if events == [] {
      RevokeRemoves(s, t, e, admin, auditor, depth, x);
    } else {
      RevokedStayOut(s, t, e, admin, auditor, depth, events[..|events| - 1], x, ledger);
      StepKeepsOut(Run(t, events[..|events| - 1]), events[|events| - 1], x);
    }
  }

  // ------------------------------------------------------------------ acyclicity

  /** A path through one more edge is a path without it, or goes through its two ends. */
  lemma {:induction false} PathThroughEdge(lists: Lists, more: Lists, p: seq<Address>, a: Address, d: Address)
    requires more == lists[a := Delegates(lists, a) + [d]] && Path(more, p)
    ensures Reaches(lists, p[0], p[|p| - 1])
      || (Reaches(lists, p[0], a) && Reaches(lists, d, p[|p| - 1]))
    decreases |p|
  {
    var n := |p| - 1;
    if n == 0 {
      ReachesSelf(lists, p[0]);
    } else {
      PathThroughEdge(lists, more, p[..n], a, d);
      var w, z := p[n - 1], p[n];
      assert z in Delegates(more, w);
      if z in Delegates(lists, w) {
        EdgeReaches(lists, w, z);
        if Reaches(lists, p[0], w) {
          ReachesTrans(lists, p[0], w, z);
        } else {
          ReachesTrans(lists, d, w, z);
        }
      } else {
        ReachesSelf(lists, d);
      }
    }
  }

  lemma ReachesThroughEdge(lists: Lists, more: Lists, x: Address, y: Address, a: Address, d: Address)
    requires more == lists[a := Delegates(lists, a) + [d]] && Reaches(more, x, y)
    ensures Reaches(lists, x, y) || (Reaches(lists, x, a) && Reaches(lists, d, y))
  {
    var p :| Joins(more, p, x, y);
    PathThroughEdge(lists, more, p, a, d);
  }

  lemma LargerReaches(lists: Lists, more: Lists, x: Address, y: Address)
    requires Reaches(lists, x, y) && forall z, w :: w in Delegates(lists, z) ==> w in Delegates(more, z)
    ensures Reaches(more, x, y)
  {
    var p :| Joins(lists, p, x, y);
    assert Joins(more, p, x, y);
  }

  /** A new delegation keeps the graph acyclic exactly when the delegate does not already reach the auditor. */
  lemma DelegationAcyclicIff(lists: Lists, a: Address, d: Address)
    requires Acyclic(lists)
    ensures Acyclic(lists[a := Delegates(lists, a) + [d]]) <==> !Reaches(lists, d, a)
  {
    var more := lists[a := Delegates(lists, a) + [d]];
    if Reaches(lists, d, a) {
      LargerReaches(lists, more, d, a);
      EdgeReaches(more, a, d);
      BelowTrans(more, a, d, a);
    } else {
      forall x
        ensures !Below(more, x, x)
      {
        if Below(more, x, x) {
          CycleUsesEdge(lists, more, x, a, d);
        }
      }
    }
  }

  lemma CycleUsesEdge(lists: Lists, more: Lists, x: Address, a: Address, d: Address)
    requires more == lists[a := Delegates(lists, a) + [d]] && Below(more, x, x)
    ensures Below(lists, x, x) || Reaches(lists, d, a)
  {
    var i :| 0 <= i < |Delegates(more, x)| && Reaches(more, Delegates(more, x)[i], x);
    var y := Delegates(more, x)[i];
    ReachesThroughEdge(lists, more, y, x, a, d);
    if y in Delegates(lists, x) {
      EdgeReaches(lists, x, y);
      if Reaches(lists, y, x) {
        BelowTrans(lists, x, y, x);
      } else {
        ReachesTrans(lists, d, x, y);
        ReachesTrans(lists, d, y, a);
      }
    }
  }

  /** No successful delegation of the run is to the auditor itself or to one who already reaches it. */
  ghost predicate Careful(events: seq<Event>) {
    forall n :: 0 <= n < |events| && events[n].call.DelegateCall? && Try(Run(NOTHING, events[..n]), events[n]).Ok? ==>
      !Reaches(Run(NOTHING, events[..n]).lists, events[n].call.delegate, events[n].call.auditor)
  }

  lemma SmallerAcyclic(m: Lists, s: Lists)
    requires Smaller(m, s) && Acyclic(s)
    ensures Acyclic(m)
  {
    forall x
      ensures !Below(m, x, x)
    {
      if Below(m, x, x) {
        ReachesSelf(m, x);
        SmallerAhead(m, s, x);
      }
    }
  }

  lemma StepAcyclic(s: Grants, ev: Event)
    requires Acyclic(s.lists)
    requires ev.call.DelegateCall? && Try(s, ev).Ok? ==> !Reaches(s.lists, ev.call.delegate, ev.call.auditor)
    ensures Acyclic(Step(s, ev).lists)
  {
    if Try(s, ev).Ok? {
      match ev.call
      case DelegateCall(auditor, delegate, _, _, _) => DelegationAcyclicIff(s.lists, auditor, delegate);
      case RevokeCall(admin, auditor, depth) =>
        DescendRemoves(s, auditor, depth);
        SmallerAcyclic(Step(s, ev).lists, s.lists);
      case _ =>
    }
  }

  /** Careful runs stay acyclic, so in them every revocation terminates. */
  lemma {:induction false} RunAcyclic(events: seq<Event>)
    requires Careful(events)
    ensures Acyclic(Run(NOTHING, events).lists)
  {
    if events != [] {
      var k := |events| - 1;
      assert forall n :: 0 <= n < k ==> events[..k][..n] == events[..n];
      RunAcyclic(events[..k]);
      StepAcyclic(Run(NOTHING, events[..k]), events[k]);
    }
  }

  lemma CarefulRevocationTerminates(events: seq<Event>, a: Address, depth: nat)
    requires Careful(events) && depth > |Run(NOTHING, events).lists|
    ensures Descend(Run(NOTHING, events), a, depth).Some?
  {
    RunAcyclic(events);
    RevocationTerminatesIff(Run(NOTHING, events), a);
  }

  // ------------------------------------------------------------------ cycles never go away

  lemma DelegationKeepsCycle(lists: Lists, x: Address, a: Address, d: Address)
    requires Below(lists, x, x)
    ensures Below(lists[a := Delegates(lists, a) + [d]], x, x)
  {
    var more := lists[a := Delegates(lists, a) + [d]];
    var i :| 0 <= i < |Delegates(lists, x)| && Reaches(lists, Delegates(lists, x)[i], x);
    var y := Delegates(lists, x)[i];
    LargerReaches(lists, more, y, x);
    EdgeReaches(more, x, y);
    BelowTrans(more, x, y, x);
  }

  lemma RevocationKeepsCycle(s: Grants, a: Address, depth: nat, x: Address)
    requires Below(s.lists, x, x) && Descend(s, a, depth).Some?
    ensures Below(Descend(s, a, depth).value.lists, x, x)
  {
    var m := Descend(s, a, depth).value.lists;
    DescendRemoves(s, a, depth);
    DescendNoCycle(s, a, depth);
    ReachedFromSnoc(s.lists, [], a, x);
    assert [] + [a] == [a];
    assert x in s.lists && x in m;
    var i :| 0 <= i < |Delegates(s.lists, x)| && Reaches(s.lists, Delegates(s.lists, x)[i], x);
    PrunedReaches(s.lists, [a], m, Delegates(s.lists, x)[i], x);
  }

  lemma StepKeepsCycle(s: Grants, ev: Event, x: Address)
    requires Below(s.lists, x, x)
    ensures Below(Step(s, ev).lists, x, x)
  {
    if Try(s, ev).Ok? {
      match ev.call
      case DelegateCall(auditor, delegate, _, _, _) => DelegationKeepsCycle(s.lists, x, auditor, delegate);
      case RevokeCall(_, auditor, depth) => RevocationKeepsCycle(s, auditor, depth, x);
      case _ =>
    }
  }

  lemma {:induction false} RunKeepsCycle(s: Grants, events: seq<Event>, x: Address)
    requires Below(s.lists, x, x)
    ensures Below(Run(s, events).lists, x, x)
  {
    if events != [] {
      RunKeepsCycle(s, events[..|events| - 1], x);
      StepKeepsCycle(Run(s, events[..|events| - 1]), events[|events| - 1], x);
    }
  }

  /** Whoever is on a cycle of delegations can never be revoked again, nor can anyone who reaches it. */
  lemma CycleUnrevocable(s: Grants, events: seq<Event>, x: Address, e: Env, admin: Address, depth: nat)
    requires Below(s.lists, x, x)
    ensures Revoke(Run(s, events), e, admin, x, depth).Err?
    ensures forall a :: Reaches(Run(s, events).lists, a, x) ==> Revoke(Run(s, events), e, admin, a, depth).Err?
  {
    var t := Run(s, events);
    RunKeepsCycle(s, events, x);
    ReachesSelf(t.lists, x);
    forall a | Reaches(t.lists, a, x)
      ensures Revoke(t, e, admin, a, depth).Err?
    {
      RevocationTerminatesIff(t, a);
    }
  }

  // ------------------------------------------------------------------ access

  /** What a delegation may grant is what access checks accept: the delegate has access until its key expires. */
  lemma DelegateHasAccessIff(s: Grants, t: Grants, e: Env, auditor: Address, delegate: Address, scope: Scope,
                             expiration: nat, bytes: Digest, ledger: nat)
    requires Delegate(s, e, auditor, delegate, scope, expiration, bytes) == Ok(t)
    ensures HasAccess(t, ledger, delegate) <==> ledger <= expiration
  {}

  /** After an accepted extension the delegate has access exactly until the new expiry. */
  lemma ExtendedHasAccessIff(s: Grants, t: Grants, e: Env, auditor: Address, delegate: Address, expiration: nat,
                             bytes: Digest, ledger: nat)
    requires Extend(s, e, auditor, delegate, expiration, bytes) == Ok(t)
    ensures HasAccess(t, ledger, delegate) <==> ledger <= expiration
  {}

  // ------------------------------------------------------------------ who can start delegating

  /** Every key was granted by the contract itself, has no parent and may not delegate. */
  ghost predicate RootsOnly(s: Grants, self: Address) {
    && s.lists == map[]
    && forall x :: x in s.keys ==> s.keys[x].grantedBy == self && s.keys[x].parent == None && !s.keys[x].mayDelegate
  }

  /** The contract's own address authorises none of the calls. */
  ghost predicate WithoutSelf(events: seq<Event>, self: Address) {
    forall i :: 0 <= i < |events| ==>
      self !in events[i].env.auth && (events[i].call.GenerateCall? ==> events[i].call.self == self)
  }

  /**
   Keys are granted by the contract itself with delegation off, so unless its own address authorises a
   call nobody ever delegates, refreshes or revokes: there are only roots.
   */
  lemma {:induction false} OnlySelfStartsDelegation(events: seq<Event>, self: Address)
    requires WithoutSelf(events, self)
    ensures RootsOnly(Run(NOTHING, events), self)
  {
    if events != [] {
      OnlySelfStartsDelegation(events[..|events| - 1], self);
    }
  }

  // ------------------------------------------------------------------ a run that is not careful

  const HOST := Env({0, 1}, false, 0, 0)

  /** An auditor that delegated to itself. */
  function SelfDelegated(): Grants {
    Grants(map[1 := Key(ZeroDigest(), 9, 1, FullCompany, true, FullCompany, 9, Some(1))], map[1 := [1]])
  }

  /** It is reachable, and after any further calls no revocation of it succeeds, whoever asks and however deep. */
  lemma SelfDelegationUnrevocable(more: seq<Event>, e: Env, admin: Address, depth: nat)
    ensures exists events :: Run(NOTHING, events) == SelfDelegated()
    ensures Revoke(Run(SelfDelegated(), more), e, admin, 1, depth).Err?
  {
    var first := Event(HOST, GenerateCall(0, 1, 9, ZeroDigest()));
    var second := Event(HOST, PolicyCall(0, 1, true, FullCompany, 9));
    var third := Event(HOST, DelegateCall(1, 1, FullCompany, 9, ZeroDigest()));
    var events := [first, second, third];
    assert events[..2][..1][..0] == [] && events[..2][..1] == [first] && events[..2] == [first, second];
    var a := Step(NOTHING, first);
    var b := Step(a, second);
    assert a.keys == map[1 := Key(ZeroDigest(), 9, 0, FullCompany, false, FullCompany, 9, None)] && a.lists == map[];
    assert b.keys == map[1 := Key(ZeroDigest(), 9, 0, FullCompany, true, FullCompany, 9, None)] && b.lists == map[];
    assert Authorise(b, HOST, 1).Ok?;
    assert Step(b, third).keys == SelfDelegated().keys && Step(b, third).lists == map[1 := [] + [1]];
    assert [] + [1] == [1];
    assert Step(b, third) == SelfDelegated();
    assert Run(NOTHING, []) == NOTHING && Run(NOTHING, [first]) == a && Run(NOTHING, [first, second]) == b;
    assert Run(NOTHING, events) == Step(b, third);
    var lists := SelfDelegated().lists;
    assert Delegates(lists, 1) == [1];
    EdgeReaches(lists, 1, 1);
    CycleUnrevocable(SelfDelegated(), more, 1, e, admin, depth);
  }
}
