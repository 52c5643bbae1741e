/** The audit contract's key storage and its entry points as they run. */
module AuditContract {
  import opened Common
  import opened DelegateGraph
  import opened AuditDelegation
  import opened AuditRevocation
  import opened AuditAcceptance

  /** Once a delegate's descent fails, the loop has failed. */
  lemma {:induction false} LoopStuck(s: Grants, ds: seq<Address>, n: nat, depth: nat)
    requires n <= |ds| && DescendAll(s, ds[..n], depth).None?
    ensures DescendAll(s, ds, depth).None?
    decreases |ds|
  {
    if n < |ds| {
      var k := |ds| - 1;
      assert ds[..k][..n] == ds[..n];
      LoopStuck(s, ds[..k], n, depth);
    } else {
      assert ds[..n] == ds;
    }
  }

  /** The grants that some sequence of calls leads to. */
  ghost predicate Reachable(s: Grants) { exists events :: s == Run(NOTHING, events) }

  lemma ReachableStep(s: Grants, ev: Event)
    requires Reachable(s)
    ensures Reachable(Step(s, ev))
  {
    var events :| s == Run(NOTHING, events);
    var more := events + [ev];
    assert more[..|more| - 1] == events;
    assert Run(NOTHING, more) == Step(s, ev);
  }

  lemma ReachableParents(s: Grants)
    requires Reachable(s)
    ensures ParentsListed(s)
  {
    var events :| s == Run(NOTHING, events);
    RunKeepsParents(events);
  }

  class AuditModule {
    var keys: map<Address, Key>
    var lists: Lists

    function View(): Grants
      reads this
    {
      Grants(keys, lists)
    }

    ghost predicate Valid()
      reads this
    {
      Reachable(View())
    }

    constructor ()
      ensures Valid() && View() == NOTHING
    {
      keys, lists := map[], map[];
      new;
      assert View() == Run(NOTHING, []);
    }

    /** What was removed before the call depth ran out stays removed: undoing it is the caller's part. */
    method RevokeDescendants(auditor: Address, depth: nat) returns (ok: bool)
      modifies this
      ensures ok == Descend(old(View()), auditor, depth).Some?
      ensures ok ==> View() == Descend(old(View()), auditor, depth).value
      decreases depth
    {
      if depth == 0 {
        return false;
      }
      ghost var start := View();
      var delegates := Delegates(lists, auditor);
      for i := 0 to |delegates|
        invariant DescendAll(start, delegates[..i], depth - 1) == Some(View())
      {
        assert delegates[..i + 1][..i] == delegates[..i];
        keys := keys - {delegates[i]};
        ok := RevokeDescendants(delegates[i], depth - 1);
        if !ok {
          LoopStuck(start, delegates, i + 1, depth - 1);
          return false;
        }
      }
      assert delegates[..|delegates|] == delegates;
      lists := lists - {auditor};
      return true;
    }

    /** On success nobody reachable from the auditor has access, and no surviving key names one of them as parent. */
    method RevokeViewKey(e: Env, admin: Address, auditor: Address, depth: nat) returns (r: Result<()>)
      requires Valid()
      modifies this
      ensures Valid() && View() == After(old(View()), Revoke(old(View()), e, admin, auditor, depth))
      ensures r == match Revoke(old(View()), e, admin, auditor, depth) case Ok(_) => Ok(()) case Err(f) => Err(f)
      ensures r.Ok? ==> forall x, ledger: nat :: Reaches(old(lists), auditor, x) ==> !HasAccess(View(), ledger, x)
      ensures r.Ok? ==> forall d :: d in keys && keys[d].parent.Some? ==> !Reaches(old(lists), auditor, keys[d].parent.value)
    {
      ReachableStep(View(), Event(e, RevokeCall(admin, auditor, depth)));
      ReachableParents(View());
      var fault := GranterFault(View(), e, admin, auditor);
      if fault.Some? {
        return Err(fault.value);
      }
      var snapshot := View();
      var done := RevokeDescendants(auditor, depth);
      if !done {
        keys, lists := snapshot.keys, snapshot.lists;
        return Err(Panic);
      }
      keys := keys - {auditor};
      RevokeKeepsParents(snapshot, View(), e, admin, auditor, depth);
      forall x, ledger: nat | Reaches(snapshot.lists, auditor, x)
        ensures !HasAccess(View(), ledger, x)
      {
        RevokeRemoves(snapshot, View(), e, admin, auditor, depth, x);
      }
      return Ok(());
    }

    /** The delegate has access exactly until its key expires, and is in its parent's list. */
    method DelegateViewKey(e: Env, auditor: Address, delegate: Address, scope: Scope, expiration: nat, bytes: Digest)
      returns (r: Result<()>)
      requires Valid()
      modifies this
      ensures Valid() && View() == After(old(View()), Delegate(old(View()), e, auditor, delegate, scope, expiration, bytes))
      ensures r == match Delegate(old(View()), e, auditor, delegate, scope, expiration, bytes)
                   case Ok(_) => Ok(()) case Err(f) => Err(f)
      ensures r.Ok? ==> forall ledger: nat :: HasAccess(View(), ledger, delegate) <==> ledger <= expiration
      ensures r.Ok? ==> delegate in keys && keys[delegate].scope == scope && keys[delegate].maxScope == scope
      ensures r.Ok? ==> keys[delegate].expiration == expiration && keys[delegate].parent == Some(auditor)
      ensures forall x :: x != delegate ==> (x in keys <==> x in old(keys)) && (x in keys ==> keys[x] == old(keys)[x])
      ensures r.Ok? && !Reaches(old(lists), delegate, auditor) && Acyclic(old(lists)) ==> Acyclic(lists)
      ensures ParentsListed(View())
    {
      var before := View();
      ReachableStep(before, Event(e, DelegateCall(auditor, delegate, scope, expiration, bytes)));
      ReachableParents(Step(before, Event(e, DelegateCall(auditor, delegate, scope, expiration, bytes))));
      var parent := Authorise(View(), e, auditor);
      if parent.Err? {
        return Err(parent.fault);
      }
      var k := parent.value;
      if !k.mayDelegate {
        return Err(DelegationNotAllowed);
      }
      if !Within(k.maxScope, scope) {
        return Err(DelegationExceedsParentScope);
      }
      if expiration > k.maxExpiration || expiration > k.expiration {
        return Err(DelegationExceedsParentExpiry);
      }
      keys := keys[delegate := Key(bytes, expiration, auditor, scope, k.mayDelegate, scope, expiration, Some(auditor))];
      var delegates := Delegates(lists, auditor);
      delegates := delegates + [delegate];
      lists := lists[auditor := delegates];
      forall ledger: nat
        ensures HasAccess(View(), ledger, delegate) <==> ledger <= expiration
      {
        DelegateHasAccessIff(before, View(), e, auditor, delegate, scope, expiration, bytes, ledger);
      }
      DelegateGives(before, View(), e, auditor, delegate, scope, expiration, bytes);
      if Acyclic(before.lists) {
        DelegationAcyclicIff(before.lists, auditor, delegate);
      }
      return Ok(());
    }

    /** The delegate has access exactly until the new expiry, which is later than the old one. */
    method ExtendDelegatedAccess(e: Env, auditor: Address, delegate: Address, expiration: nat, bytes: Digest)
      returns (r: Result<()>)
      requires Valid()
      modifies this
      ensures Valid() && View() == After(old(View()), Extend(old(View()), e, auditor, delegate, expiration, bytes))
      ensures r == match Extend(old(View()), e, auditor, delegate, expiration, bytes)
                   case Ok(_) => Ok(()) case Err(f) => Err(f)
      ensures r.Ok? ==> forall ledger: nat :: HasAccess(View(), ledger, delegate) <==> ledger <= expiration
      ensures r.Ok? ==> delegate in old(keys) && old(keys)[delegate].expiration < expiration && lists == old(lists)
    {
      ghost var before := View();
      ReachableStep(before, Event(e, ExtendCall(auditor, delegate, expiration, bytes)));
      if delegate !in keys {
        return Err(KeyNotFound);
      }
      var k := keys[delegate];
      if k.parent != Some(auditor) {
        return Err(NotKeyGranter);
      }
      if e.ledger > k.expiration {
        return Err(KeyExpired);
      }
      if auditor !in keys {
        return Err(DelegationRevoked);
      }
      var parent := keys[auditor];
      if !parent.mayDelegate {
        return Err(DelegationNotAllowed);
      }
      if expiration <= k.expiration {
        return Err(ExpirationNotExtended);
      }
      if expiration > parent.maxExpiration || expiration > parent.expiration {
        return Err(DelegationExceedsParentExpiry);
      }
      if !Within(parent.maxScope, k.scope) {
        return Err(DelegationExceedsParentScope);
      }
      k := k.(bytes := bytes);
      k := k.(expiration := expiration);
      keys := keys[delegate := k];
      forall ledger: nat
        ensures HasAccess(View(), ledger, delegate) <==> ledger <= expiration
      {
        ExtendedHasAccessIff(before, View(), e, auditor, delegate, expiration, bytes, ledger);
      }
      return Ok(());
    }
  }
}
