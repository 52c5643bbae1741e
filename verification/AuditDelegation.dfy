/**
 View keys and their delegation in the audit contract (contracts/audit_module/src/lib.rs), and what
 revocation removes.
 */
module AuditDelegation {
  import opened Common
  import opened DelegateGraph

  datatype Scope = FullCompany | TimeRange | EmployeeList | AggregateOnly

  datatype Key = Key(
    bytes: Digest, expiration: nat, grantedBy: Address, scope: Scope, mayDelegate: bool, maxScope: Scope,
    maxExpiration: nat, parent: Option<Address>)

  /** The keys by auditor, and the list of delegates by delegating auditor. */
  datatype Grants = Grants(keys: map<Address, Key>, lists: Lists)

  const NOTHING := Grants(map[], map[])

  datatype Fault =
    | KeyNotFound | KeyExpired | NotKeyGranter | ExpirationNotExtended | DelegationNotAllowed
    | DelegationExceedsParentScope | DelegationExceedsParentExpiry | DelegationRevoked
    | Panic

  datatype Result<+T> = Ok(value: T) | Err(fault: Fault)

  function Rank(scope: Scope): nat {
    match scope
    case FullCompany => 4
    case TimeRange => 3
    case EmployeeList => 2
    case AggregateOnly => 1
  }

  predicate Within(parent: Scope, child: Scope) { Rank(child) <= Rank(parent) }

  // ------------------------------------------------------------------ granting

  /** `generate_view_key`; `self` is the contract's own address and `bytes` what it derives. */
  function Generate(s: Grants, e: Env, self: Address, auditor: Address, expiration: nat, bytes: Digest): Result<Grants> {
    if e.paused then Err(Panic)
    else Ok(s.(keys := s.keys[auditor :=
      Key(bytes, expiration, self, FullCompany, false, FullCompany, expiration, None)]))
  }

  /** `authorize_auditor` */
  function Authorise(s: Grants, e: Env, auditor: Address): Result<Key> {
    if auditor !in e.auth then Err(Panic)
    else if auditor !in s.keys then Err(KeyNotFound)
    else
      var k := s.keys[auditor];
      if e.ledger > k.expiration then Err(KeyExpired)
      else if k.parent.None? then Ok(k)
      else if k.parent.value !in s.keys || e.ledger > s.keys[k.parent.value].expiration then Err(DelegationRevoked)
      else
        var parent := s.keys[k.parent.value];
        if !Within(parent.maxScope, k.scope) then Err(DelegationExceedsParentScope)
        else if k.expiration > parent.maxExpiration || k.expiration > parent.expiration
          then Err(DelegationExceedsParentExpiry)
        else Ok(k)
  }

  /** `verify_access`: the same checks without authorisation. */
  predicate HasAccess(s: Grants, ledger: nat, auditor: Address) {
    Authorise(s, Env({auditor}, false, 0, ledger), auditor).Ok?
  }

  function Delegate(s: Grants, e: Env, auditor: Address, delegate: Address, scope: Scope, expiration: nat, bytes: Digest)
    : Result<Grants>
  {
    var parent := Authorise(s, e, auditor);
    if parent.Err? then Err(parent.fault)
    else
      var k := parent.value;
      if !k.mayDelegate then Err(DelegationNotAllowed)
      else if !Within(k.maxScope, scope) then Err(DelegationExceedsParentScope)
      else if expiration > k.maxExpiration || expiration > k.expiration then Err(DelegationExceedsParentExpiry)
      else Ok(AddDelegate(s, auditor, delegate,
        Key(bytes, expiration, auditor, scope, k.mayDelegate, scope, expiration, Some(auditor))))
  }

  function AddDelegate(s: Grants, auditor: Address, delegate: Address, key: Key): Grants {
    Grants(s.keys[delegate := key], s.lists[auditor := Delegates(s.lists, auditor) + [delegate]])
  }

  function Extend(s: Grants, e: Env, auditor: Address, delegate: Address, expiration: nat, bytes: Digest): Result<Grants> {
    if delegate !in s.keys then Err(KeyNotFound)
    else if s.keys[delegate].parent != Some(auditor) then Err(NotKeyGranter)
    else if e.ledger > s.keys[delegate].expiration then Err(KeyExpired)
    else if auditor !in s.keys then Err(DelegationRevoked)
    else
      var k, parent := s.keys[delegate], s.keys[auditor];
      if !parent.mayDelegate then Err(DelegationNotAllowed)
      else if expiration <= k.expiration then Err(ExpirationNotExtended)
      else if expiration > parent.maxExpiration || expiration > parent.expiration then Err(DelegationExceedsParentExpiry)
      else if !Within(parent.maxScope, k.scope) then Err(DelegationExceedsParentScope)
      else Ok(s.(keys := s.keys[delegate := k.(bytes := bytes, expiration := expiration)]))
  }

  /** What `refresh_view_key`, `set_delegation_policy` and `revoke_view_key` check first. */
  function GranterFault(s: Grants, e: Env, admin: Address, auditor: Address): Option<Fault> {
    if e.paused || admin !in e.auth then Some(Panic)
    else if auditor !in s.keys then Some(KeyNotFound)
    else if s.keys[auditor].grantedBy != admin then Some(NotKeyGranter)
    else None
  }

  function Refresh(s: Grants, e: Env, admin: Address, auditor: Address, expiration: nat, bytes: Digest): Result<Grants> {
    var fault := GranterFault(s, e, admin, auditor);
    if fault.Some? then Err(fault.value)
    else if expiration <= s.keys[auditor].expiration then Err(ExpirationNotExtended)
    else Ok(s.(keys := s.keys[auditor := s.keys[auditor].(bytes := bytes, expiration := expiration)]))
  }

  function SetPolicy(s: Grants, e: Env, admin: Address, auditor: Address, allow: bool, scope: Scope, expiration: nat)
    : Result<Grants>
  {
    var fault := GranterFault(s, e, admin, auditor);
    if fault.Some? then Err(fault.value)
    else Ok(s.(keys := s.keys[auditor :=
      s.keys[auditor].(mayDelegate := allow, maxScope := scope, maxExpiration := expiration)]))
  }

  // ------------------------------------------------------------------ revoking

  /**
   `revoke_descendants`. Nothing in the source bounds its recursion; the host does, by a call depth,
   and aborts when that is exhausted.
   */
  function Descend(s: Grants, auditor: Address, depth: nat): Option<Grants>
    decreases depth, 0
  {
    if depth == 0 then None
    else
      var r := DescendAll(s, Delegates(s.lists, auditor), depth - 1);
      if r.None? then None else Some(r.value.(lists := r.value.lists - {auditor}))
  }

  /** Its loop over the delegates. */
  function DescendAll(s: Grants, ds: seq<Address>, depth: nat): Option<Grants>
    decreases depth, |ds| + 1
  {
    if ds == [] then Some(s)
    else
      var d := ds[|ds| - 1];
      var r := DescendAll(s, ds[..|ds| - 1], depth);
      if r.None? then None else Descend(r.value.(keys := r.value.keys - {d}), d, depth)
  }

  function Revoke(s: Grants, e: Env, admin: Address, auditor: Address, depth: nat): Result<Grants> {
    var fault := GranterFault(s, e, admin, auditor);
    if fault.Some? then Err(fault.value)
    else
      var r := Descend(s, auditor, depth);
      if r.None? then Err(Panic) else Ok(r.value.(keys := r.value.keys - {auditor}))
  }
}
