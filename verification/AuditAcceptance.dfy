/**
 Exactly when the audit contract accepts each call, who has access, and what a key says afterwards, in
 terms of the stored keys and the scopes asked for.
 */
module AuditAcceptance {
  import opened Common
  import opened DelegateGraph
  import opened AuditDelegation
  import opened AuditRevocation

  /** Full company is wider than a time range, that than a list of employees, that than aggregates. */
  predicate NoWider(child: Scope, parent: Scope) {
    match parent
    case FullCompany => true
    case TimeRange => child == TimeRange || child == EmployeeList || child == AggregateOnly
    case EmployeeList => child == EmployeeList || child == AggregateOnly
    case AggregateOnly => child == AggregateOnly
  }

  lemma WithinIs(parent: Scope, child: Scope)
    ensures Within(parent, child) <==> NoWider(child, parent)
  {}

  /** A key that has not expired and, if delegated, still fits within its parent's. */
  predicate MayAct(s: Grants, ledger: nat, x: Address) {
    && x in s.keys && ledger <= s.keys[x].expiration
    && (s.keys[x].parent.Some? ==>
          var p := s.keys[x].parent.value;
          && p in s.keys && ledger <= s.keys[p].expiration && NoWider(s.keys[x].scope, s.keys[p].maxScope)
          && s.keys[x].expiration <= s.keys[p].maxExpiration && s.keys[x].expiration <= s.keys[p].expiration)
  }

  lemma AuthoriseIff(s: Grants, e: Env, x: Address)
    ensures Authorise(s, e, x).Ok? <==> x in e.auth && MayAct(s, e.ledger, x)
    ensures Authorise(s, e, x).Ok? ==> Authorise(s, e, x).value == s.keys[x]
  {
    if x in s.keys && s.keys[x].parent.Some? && s.keys[x].parent.value in s.keys {
      WithinIs(s.keys[s.keys[x].parent.value].maxScope, s.keys[x].scope);
    }
  }

  lemma AccessIff(s: Grants, ledger: nat, x: Address)
    ensures HasAccess(s, ledger, x) <==> MayAct(s, ledger, x)
  {
    AuthoriseIff(s, Env({x}, false, 0, ledger), x);
  }

  // ------------------------------------------------------------------ delegation

  /** An auditor may pass on what its own key allows, no wider and no longer. */
  lemma DelegateIff(s: Grants, e: Env, auditor: Address, delegate: Address, scope: Scope, expiration: nat, bytes: Digest)
    ensures Delegate(s, e, auditor, delegate, scope, expiration, bytes).Ok? <==>
      && auditor in e.auth && MayAct(s, e.ledger, auditor) && s.keys[auditor].mayDelegate
      && NoWider(scope, s.keys[auditor].maxScope)
      && expiration <= s.keys[auditor].maxExpiration && expiration <= s.keys[auditor].expiration
  {
    AuthoriseIff(s, e, auditor);
    if auditor in s.keys {
      WithinIs(s.keys[auditor].maxScope, scope);
    }
  }

  /** The delegate's key says exactly what was asked for; no other key changes. */
  lemma DelegateGives(s: Grants, t: Grants, e: Env, auditor: Address, delegate: Address, scope: Scope, expiration: nat,
                      bytes: Digest)
    requires Delegate(s, e, auditor, delegate, scope, expiration, bytes) == Ok(t)
    ensures t.keys == s.keys[delegate := Key(bytes, expiration, auditor, scope, true, scope, expiration, Some(auditor))]
    ensures t.lists == s.lists[auditor := (if auditor in s.lists then s.lists[auditor] else []) + [delegate]]
  {
    AuthoriseIff(s, e, auditor);
  }

  /** So a delegate passes on scopes no wider than its own was asked to be, and for no longer. */
  lemma DelegatePassesOn(s: Grants, t: Grants, e: Env, auditor: Address, delegate: Address, scope: Scope, expiration: nat,
                         bytes: Digest, e': Env, third: Address, scope': Scope, expiration': nat, bytes': Digest)
    requires Delegate(s, e, auditor, delegate, scope, expiration, bytes) == Ok(t) && delegate != auditor
    ensures Delegate(t, e', delegate, third, scope', expiration', bytes').Ok? <==>
      delegate in e'.auth && e'.ledger <= expiration && NoWider(scope', scope) && expiration' <= expiration
  {
    DelegateIff(s, e, auditor, delegate, scope, expiration, bytes);
    DelegateGives(s, t, e, auditor, delegate, scope, expiration, bytes);
    DelegateIff(t, e', delegate, third, scope', expiration', bytes');
  }

  // ------------------------------------------------------------------ the other calls

  lemma GenerateGives(s: Grants, e: Env, self: Address, auditor: Address, expiration: nat, bytes: Digest)
    ensures Generate(s, e, self, auditor, expiration, bytes).Ok? <==> !e.paused
    ensures var key := Key(bytes, expiration, self, FullCompany, false, FullCompany, expiration, None);
      !e.paused ==> Generate(s, e, self, auditor, expiration, bytes).value == Grants(s.keys[auditor := key], s.lists)
  {}

  /** An extension is of a live delegation, by its parent's leave, to a later expiry within the parent's. */
  lemma ExtendIff(s: Grants, e: Env, auditor: Address, delegate: Address, expiration: nat, bytes: Digest)
    ensures Extend(s, e, auditor, delegate, expiration, bytes).Ok? <==>
      && delegate in s.keys && s.keys[delegate].parent == Some(auditor) && e.ledger <= s.keys[delegate].expiration
      && auditor in s.keys && s.keys[auditor].mayDelegate
      && s.keys[delegate].expiration < expiration
      && expiration <= s.keys[auditor].maxExpiration && expiration <= s.keys[auditor].expiration
      && NoWider(s.keys[delegate].scope, s.keys[auditor].maxScope)
  {
    if delegate in s.keys && auditor in s.keys {
      WithinIs(s.keys[auditor].maxScope, s.keys[delegate].scope);
    }
  }

  lemma ExtendGives(s: Grants, t: Grants, e: Env, auditor: Address, delegate: Address, expiration: nat, bytes: Digest)
    requires Extend(s, e, auditor, delegate, expiration, bytes) == Ok(t)
    ensures delegate in s.keys && t.lists == s.lists
    ensures t.keys == s.keys[delegate := s.keys[delegate].(bytes := bytes, expiration := expiration)]
  {}

  /** This caller granted the auditor's key and has authorised the call. */
  predicate Granter(s: Grants, e: Env, admin: Address, auditor: Address) {
    !e.paused && admin in e.auth && auditor in s.keys && s.keys[auditor].grantedBy == admin
  }

  lemma RefreshIff(s: Grants, e: Env, admin: Address, auditor: Address, expiration: nat, bytes: Digest)
    ensures Refresh(s, e, admin, auditor, expiration, bytes).Ok? <==>
      Granter(s, e, admin, auditor) && s.keys[auditor].expiration < expiration
    ensures Refresh(s, e, admin, auditor, expiration, bytes).Ok? ==>
      Refresh(s, e, admin, auditor, expiration, bytes).value ==
        Grants(s.keys[auditor := s.keys[auditor].(bytes := bytes, expiration := expiration)], s.lists)
  {}

  lemma PolicyIff(s: Grants, e: Env, admin: Address, auditor: Address, allow: bool, scope: Scope, expiration: nat)
    ensures SetPolicy(s, e, admin, auditor, allow, scope, expiration).Ok? <==> Granter(s, e, admin, auditor)
    ensures SetPolicy(s, e, admin, auditor, allow, scope, expiration).Ok? ==>
      SetPolicy(s, e, admin, auditor, allow, scope, expiration).value ==
        Grants(s.keys[auditor := s.keys[auditor].(mayDelegate := allow, maxScope := scope, maxExpiration := expiration)],
               s.lists)
  {}

  /** With enough call depth, a revocation is the granter's and meets no cycle. */
  lemma RevokeIff(s: Grants, e: Env, admin: Address, auditor: Address, depth: nat)
    requires depth > |s.lists|
    ensures Revoke(s, e, admin, auditor, depth).Ok? <==> Granter(s, e, admin, auditor) && !CycleFrom(s.lists, auditor)
  {
    RevocationTerminatesIff(s, auditor);
  }

  /** The faults of an auditor who may not act. */
  lemma AuthoriseFaults(s: Grants, e: Env, x: Address)
    requires x in e.auth
    ensures Authorise(s, e, x) == Err(KeyNotFound) <==> x !in s.keys
    ensures Authorise(s, e, x) == Err(KeyExpired) <==> x in s.keys && s.keys[x].expiration < e.ledger
    ensures Authorise(s, e, x) == Err(DelegationRevoked) <==>
      && x in s.keys && e.ledger <= s.keys[x].expiration && s.keys[x].parent.Some?
      && (s.keys[x].parent.value in s.keys ==> s.keys[s.keys[x].parent.value].expiration < e.ledger)
  {}
}
