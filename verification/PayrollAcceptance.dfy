/**
 Exactly when the payroll contract accepts each call, and what the call leaves, in terms of the stored
 fields, the callers and plain numbers. Nothing here goes through the checks of `PayrollLedger`.
 */
module PayrollAcceptance {
  import opened Common
  import opened Token
  import opened PayrollLedger
  import opened PayrollInvariant
  import opened PayrollPreservation
  import opened PayrollRuns
  import opened PayrollStates
  import opened PayrollTreasury

  /** This caller is the stored admin and has authorised the call. */
  predicate Signed(s: Ledger, e: Env, caller: Address) {
    s.addrs.Some? && s.addrs.value.admin == caller && caller in e.auth
  }

  predicate AllZero(d: Digest) { d.bytes == seq(32, _ => 0) }

  /** The counter, and so the configuration lock, sees exactly the pending runs. */
  lemma LockMeansPending(s: Ledger)
    requires Reachable(s) && s.addrs.Some?
    ensures s.pendingCount == 0 <==> s.pending == map[]
    ensures Locked(s, s.addrs.value.token) == Reserved(s.pending) && s.pendingCount == |s.pending|
  {
    ReservationExact(s);
  }

  // ------------------------------------------------------------------ batches

  /** What a batch needs before anything is written, whether it is prepared or executed. */
  ghost predicate Submittable(s: Ledger, e: Env, b: Batch) {
    && s.addrs.Some? && s.addrs.value.admin in e.auth
    && (s.companyState.Some? ==> s.companyState.value == Active)
    && b.supported
    && 1 <= b.proofs <= 50 && |b.amounts| == b.proofs && |b.employees| == b.proofs
    && (forall i, j :: 0 <= i < j < |b.employees| ==> b.employees[i] != b.employees[j])
    && (forall i :: 0 <= i < |b.amounts| ==> b.amounts[i] >= 1)
    && Total(b.amounts) == b.expected && b.expected <= 0x7FFF_FFFF_FFFF_FFFF_FFFF_FFFF_FFFF_FFFF
    && b.nonce !in s.runNonce
    && (s.addrs.value.admin in s.sequences ==> NoncePrefix(s.sequences[s.addrs.value.admin].last) < NoncePrefix(b.nonce))
    && (b.draft.Some? ==> b.draft.value in s.committed)
    && s.addrs.value.token in s.allowed && s.allowed[s.addrs.value.token]
    && s.counter < 0xFFFF_FFFF_FFFF_FFFF
  }

  lemma SubmittableIff(s: Ledger, e: Env, b: Batch)
    ensures BatchAccepted(s, e, b) <==> Submittable(s, e, b)
  {
    if |b.amounts| > 0 && AllPositive(b.amounts) {
      TotalPositive(b.amounts);
    }
    assert Distinct(b.employees) <==> forall i, j :: 0 <= i < j < |b.employees| ==> b.employees[i] != b.employees[j];
  }

  /** Preparation asks for room in the counter and the reservation, and not for funds or an unpaused system. */
  ghost predicate Preparable(s: Ledger, e: Env, b: Batch) {
    && Submittable(s, e, b) && |s.pending| < 4_294_967_295
    && Reserved(s.pending) + b.expected <= 0x7FFF_FFFF_FFFF_FFFF_FFFF_FFFF_FFFF_FFFF
  }

  lemma PrepareIff(s: Ledger, e: Env, b: Batch)
    requires Reachable(s)
    ensures Prepare(s, e, b).Some? <==> Preparable(s, e, b)
  {
    SubmittableIff(s, e, b);
    if Submittable(s, e, b) {
      LockMeansPending(s);
      ReservationExact(s);
      TotalPositive(b.amounts);
    }
  }

  /** Execution asks for an unpaused system, the treasury's authorisation and funds, and every payment's oracles. */
  ghost predicate Executable(s: Ledger, e: Env, b: Batch, oracle: seq<bool>) {
    && Submittable(s, e, b) && !e.paused && !AllZero(b.nonce) && (b.draft.Some? ==> !AllZero(b.draft.value))
    && s.addrs.value.treasury in e.auth && b.expected <= Of(s.balances, s.addrs.value.treasury)
    && b.proofs <= |oracle| && (forall i :: 0 <= i < b.proofs ==> oracle[i])
  }

  lemma ExecuteIff(s: Ledger, e: Env, b: Batch, oracle: seq<bool>)
    ensures Execute(s, e, b, oracle).Some? <==> Executable(s, e, b, oracle)
  {
    AcceptedBatchPays(s, e, b, oracle);
    SubmittableIff(s, e, b);
    ZeroIs(b.nonce);
    if b.draft.Some? {
      ZeroIs(b.draft.value);
    }
    AllPass(oracle, b.proofs);
  }

  lemma ZeroIs(d: Digest)
    ensures d == ZeroDigest() <==> AllZero(d)
  {}

  lemma AllPass(oracle: seq<bool>, n: nat)
    ensures (forall i :: 0 <= i < n ==> Passes(oracle, i)) <==> n <= |oracle| && forall i :: 0 <= i < n ==> oracle[i]
  {
    if forall i :: 0 <= i < n ==> Passes(oracle, i) {
      assert n > 0 ==> Passes(oracle, n - 1);
      assert forall i :: 0 <= i < n ==> Passes(oracle, i) ==> oracle[i];
    }
  }

  /** The record a preparation leaves. */
  lemma PrepareLeaves(s: Ledger, t: Ledger, e: Env, b: Batch)
    requires Prepare(s, e, b) == Some(t)
    ensures var id, draft := s.counter + 1, if b.draft.Some? then b.draft.value else Digest(seq(32, _ => 0));
      && t.counter == id && t.runState == s.runState[id := Submitted]
      && t.pending == s.pending[id := PendingRun(id, e.now, s.addrs.value.admin, b.expected, b.proofs, draft, b.nonce)]
      && t.runNonce == s.runNonce[b.nonce := id]
      && t.executed == s.executed && t.cancelled == s.cancelled && t.committed == s.committed
    ensures SequenceAdvanced(s, t, e, b.nonce)
  {}

  /** The admin's sequence counts one more, at this time, with this nonce last; no other sequence changes. */
  ghost predicate SequenceAdvanced(s: Ledger, t: Ledger, e: Env, nonce: Digest) {
    s.addrs.Some? && (
      var a := s.addrs.value.admin;
      var n := if a in s.sequences then s.sequences[a].current else 0;
      t.sequences == s.sequences[a := NonceSequence(n + 1, e.now, nonce)])
  }

  /** The record an executed batch leaves; a draft is consumed. */
  lemma ExecuteLeaves(s: Ledger, t: Ledger, e: Env, b: Batch, oracle: seq<bool>)
    requires Execute(s, e, b, oracle) == Some(t)
    ensures var id, draft := s.counter + 1, if b.draft.Some? then b.draft.value else Digest(seq(32, _ => 0));
      && t.counter == id && t.runState == s.runState[id := ReconciliationRequired]
      && t.executed == s.executed[id := PayrollRun(id, e.now, s.addrs.value.admin, b.expected, b.proofs, draft, b.nonce,
                                                   Unreconciled, Digest(seq(32, _ => 0)))]
      && t.runNonce == s.runNonce[b.nonce := id]
      && t.pending == s.pending && t.cancelled == s.cancelled && t.locked == s.locked
    ensures SequenceAdvanced(s, t, e, b.nonce)
    ensures forall d :: d in t.committed <==> d in s.committed && b.draft != Some(d)
  {}

  // ------------------------------------------------------------------ resolving runs

  lemma FinalizeIff(s: Ledger, e: Env, admin: Address, id: nat, expired: bool)
    requires Reachable(s)
    ensures Finalize(s, e, admin, id, expired).Some? <==>
      Signed(s, e, admin) && id in s.pending && id != 0xFFFF_FFFF_FFFF_FFFF && !e.paused && !expired
  {
    ResolveAcceptedExactly(s, e, admin, id);
  }

  lemma CancelIff(s: Ledger, e: Env, admin: Address, id: nat, reason: string)
    requires Reachable(s)
    ensures Cancel(s, e, admin, id, reason).Some? <==>
      Signed(s, e, admin) && id in s.pending && id != 0xFFFF_FFFF_FFFF_FFFF && |reason| > 0
  {
    ResolveAcceptedExactly(s, e, admin, id);
  }

  lemma FinalizeLeaves(s: Ledger, t: Ledger, e: Env, admin: Address, id: nat, expired: bool)
    requires Finalize(s, e, admin, id, expired) == Some(t)
    ensures id in s.pending && t.pending == s.pending - {id} && t.runState == s.runState[id := ReconciliationRequired]
    ensures var p := s.pending[id];
      t.executed == s.executed[id := PayrollRun(id, e.now, admin, p.total, p.employees, p.draft, p.nonce, Unreconciled,
                                                Digest(seq(32, _ => 0)))]
    ensures t.cancelled == s.cancelled && t.runNonce == s.runNonce && t.sequences == s.sequences
  {}

  lemma CancelLeaves(s: Ledger, t: Ledger, e: Env, admin: Address, id: nat, reason: string)
    requires Cancel(s, e, admin, id, reason) == Some(t)
    ensures id in s.pending && t.pending == s.pending - {id} && t.runState == s.runState[id := Cancelled]
    ensures var p := s.pending[id];
      t.cancelled == s.cancelled[id := CancelledRun(id, e.now, admin, reason, p.employees, p.total, p.draft)]
    ensures t.executed == s.executed && t.runNonce == s.runNonce && t.sequences == s.sequences
  {}

  // ------------------------------------------------------------------ states

  /** The moves of the table, by where they lead. */
  predicate MayMove(from: RunState, to: RunState) {
    || (to == Validating && (from == Draft || from == Failed))
    || (to == ProofPending && (from == Validating || from == Failed))
    || (to == ReadyToSubmit && from == ProofPending)
    || (to == Submitted && from == ReadyToSubmit)
    || (to == Confirming && from == Submitted)
    || (to == ReconciliationRequired && from == Confirming)
    || (to == Completed && (from == Confirming || from == ReconciliationRequired))
    || (to == Failed && from != Draft && from != Completed && from != Cancelled && from != Failed)
    || (to == Cancelled && (from == Draft || from == Validating || from == ProofPending || from == ReadyToSubmit
                            || from == Submitted || from == Failed))
  }

  lemma TableIs(from: RunState, to: RunState)
    ensures TransitionAllowed(from, to) <==> MayMove(from, to)
  {}

  /** A manual transition is the unpaused admin's, of a known run, along the table. */
  lemma TransitionIff(s: Ledger, e: Env, admin: Address, id: nat, next: RunState)
    requires Reachable(s)
    ensures Transition(s, e, admin, id, next).Some? <==>
      !e.paused && Signed(s, e, admin) && id in s.runState && MayMove(s.runState[id], next)
    ensures Transition(s, e, admin, id, next).Some? ==>
      Transition(s, e, admin, id, next).value == s.(runState := s.runState[id := next])
  {
    StatesStored(s, id);
    if id in s.runState {
      TableIs(s.runState[id], next);
    }
  }

  /** The states from which a status may be put on record. */
  predicate MayRecord(from: RunState, status: Reconciliation) {
    match status
    case Reconciled => from == ReconciliationRequired || from == Confirming
    case Unreconciled => from == ReconciliationRequired || from == Confirming
    case ReconciliationFailed => from != Draft && from != Completed && from != Cancelled
  }

  lemma ReconcileIff(s: Ledger, e: Env, admin: Address, id: nat, status: Reconciliation)
    requires Reachable(s) && id in s.executed
    ensures id in s.runState
    ensures UpdateReconciliation(s, e, admin, id, status).Some? <==>
      !e.paused && Signed(s, e, admin) && MayRecord(s.runState[id], status)
  {
    StatesStored(s, id);
    TableIs(s.runState[id], Completed);
    TableIs(s.runState[id], ReconciliationRequired);
    TableIs(s.runState[id], Failed);
  }

  /** Reconciled completes a run, Unreconciled leaves it to be reconciled, a failure fails it. */
  lemma ReconcileLeaves(s: Ledger, t: Ledger, e: Env, admin: Address, id: nat, status: Reconciliation)
    requires UpdateReconciliation(s, e, admin, id, status) == Some(t)
    ensures id in s.executed && t.executed == s.executed[id := s.executed[id].(status := status)]
    ensures status == Reconciled ==> t.runState == s.runState[id := Completed]
    ensures status == Unreconciled ==> t.runState == s.runState[id := ReconciliationRequired]
    ensures status == ReconciliationFailed ==> t.runState == s.runState[id := Failed]
  {}

  /** A run just finalized or executed can be given any status by the unpaused admin. */
  lemma FreshRunReconciles(s: Ledger, e: Env, admin: Address, id: nat, status: Reconciliation)
    requires Reachable(s) && id in s.executed && id in s.runState && s.runState[id] == ReconciliationRequired
    requires !e.paused && Signed(s, e, admin)
    ensures UpdateReconciliation(s, e, admin, id, status).Some?
  {
    ReconcileIff(s, e, admin, id, status);
  }

  // ------------------------------------------------------------------ drafts and metadata

  /** A digest is committed by the unpaused admin, once, and consumed by the run it is attached to. */
  lemma CommitIff(s: Ledger, e: Env, admin: Address, digest: Digest)
    ensures Commit(s, e, admin, digest).Some? <==>
      !e.paused && Signed(s, e, admin) && !AllZero(digest) && digest !in s.committed
    ensures Commit(s, e, admin, digest).Some? ==>
      Commit(s, e, admin, digest).value == s.(committed := s.committed + {digest})
  {
    ZeroIs(digest);
  }

  lemma MetadataIff(s: Ledger, e: Env, admin: Address, id: nat, digest: Digest)
    ensures SetRunMetadata(s, e, admin, id, digest).Some? <==>
      && !e.paused && Signed(s, e, admin) && !AllZero(digest) && digest in s.committed
      && id in s.executed && id != 0xFFFF_FFFF_FFFF_FFFF
    ensures SetRunMetadata(s, e, admin, id, digest).Some? ==>
      var t := SetRunMetadata(s, e, admin, id, digest).value;
      && t.executed == s.executed[id := s.executed[id].(metadata := digest)] && t.runState == s.runState
      && forall d :: d in t.committed <==> d in s.committed && d != digest
  {
    ZeroIs(digest);
  }

  // ------------------------------------------------------------------ settings

  /** Initialization happens once, for ever, and allows the payout token. */
  lemma InitializeOnce(s: Ledger, t: Ledger, e: Env, a: Addresses, events: seq<Event>, b: Addresses)
    requires Reachable(s) && Try(s, Event(e, OnSettings(InitializeCall(a)))) == Some(t)
    ensures t.addrs == Some(a) && t.treasuryOwner == Some(a.owner) && a.token in t.allowed && t.allowed[a.token]
    ensures forall x :: x != a.token ==> (x in t.allowed <==> x in s.allowed)
    ensures Initialize(Run(t, events), b) == None
  {
    ReachableTry(s, Event(e, OnSettings(InitializeCall(a))));
    StaysInitialized(t, events);
  }

  /** Both are initialized, with the same token and treasury address. */
  ghost predicate SameHome(s: Ledger, t: Ledger) {
    && s.addrs.Some? && t.addrs.Some?
    && t.addrs.value == s.addrs.value.(admin := t.addrs.value.admin, owner := t.addrs.value.owner)
  }

  lemma RunCallHome(s: Ledger, t: Ledger, e: Env, c: RunCall)
    requires TryRun(s, e, c) == Some(t) && s.addrs.Some?
    ensures SameHome(s, t)
  {
    RunCallAddresses(s, t, e, c);
  }

  lemma RecordCallHome(s: Ledger, t: Ledger, e: Env, c: RecordCall)
    requires TryRecord(s, e, c) == Some(t) && s.addrs.Some?
    ensures SameHome(s, t)
  {
    RecordCallFrame(s, t, e, c);
  }

  lemma SettingsCallHome(s: Ledger, t: Ledger, e: Env, c: SettingsCall)
    requires TrySettings(s, e, c) == Some(t) && s.addrs.Some?
    ensures SameHome(s, t)
  {}

  lemma TreasuryCallHome(s: Ledger, t: Ledger, e: Env, c: TreasuryCall)
    requires TryTreasury(s, e, c) == Some(t) && s.addrs.Some?
    ensures SameHome(s, t)
  {
    TreasuryCallFrame(s, t, e, c);
  }

  lemma StepHome(s: Ledger, ev: Event)
    requires s.addrs.Some?
    ensures SameHome(s, Step(s, ev))
  {
    if Try(s, ev).Some? {
      match ev.call
      case OnRun(c) => RunCallHome(s, Step(s, ev), ev.env, c);
      case OnRecord(c) => RecordCallHome(s, Step(s, ev), ev.env, c);
      case OnSettings(c) => SettingsCallHome(s, Step(s, ev), ev.env, c);
      case OnTreasury(c) => TreasuryCallHome(s, Step(s, ev), ev.env, c);
    }
  }

  /** Token and treasury address never change. */
  lemma {:induction false} StaysInitialized(s: Ledger, events: seq<Event>)
    requires s.addrs.Some?
    ensures SameHome(s, Run(s, events))
  {
    if events != [] {
      StaysInitialized(s, events[..|events| - 1]);
      StepHome(Run(s, events[..|events| - 1]), events[|events| - 1]);
    }
  }

  /** Allowing and disallowing an asset is the admin's, while nothing is pending. */
  lemma SetAssetIff(s: Ledger, e: Env, asset: Address, allowed: bool)
    requires Reachable(s)
    ensures SetAssetAllowed(s, e, asset, allowed).Some? <==>
      s.addrs.Some? && s.addrs.value.admin in e.auth && s.pending == map[]
  {
    if s.addrs.Some? {
      LockMeansPending(s);
    }
  }

  lemma SetAssetLeaves(s: Ledger, t: Ledger, e: Env, asset: Address, allowed: bool)
    requires SetAssetAllowed(s, e, asset, allowed) == Some(t)
    ensures t == s.(allowed := s.allowed[asset := allowed], supported := t.supported)
  {}

  lemma SetCompanyIff(s: Ledger, e: Env, admin: Address, state: CompanyState)
    requires Reachable(s)
    ensures SetCompanyState(s, e, admin, state).Some? <==> Signed(s, e, admin) && s.pending == map[]
    ensures SetCompanyState(s, e, admin, state).Some? ==>
      SetCompanyState(s, e, admin, state).value == s.(companyState := Some(state))
  {
    if s.addrs.Some? {
      LockMeansPending(s);
    }
  }

  /** Roles pass to the proposed holder who accepts; only the handover ignores pending runs. */
  lemma RolesPassIff(s: Ledger, e: Env, caller: Address, proposal: Option<Address>)
    requires Reachable(s)
    ensures AcceptAdminHandover(s, e, caller, proposal).Some? <==>
      s.addrs.Some? && !e.paused && proposal == Some(caller) && caller in e.auth
    ensures AcceptAdminRotation(s, e, caller, proposal).Some? <==>
      s.addrs.Some? && !e.paused && proposal == Some(caller) && caller in e.auth && s.pending == map[]
    ensures AcceptTreasuryRotation(s, e, caller, proposal).Some? <==>
      s.addrs.Some? && !e.paused && proposal == Some(caller) && caller in e.auth && s.pending == map[]
  {
    if s.addrs.Some? {
      LockMeansPending(s);
      OwnerStored(s);
    }
  }

  lemma OwnerStored(s: Ledger)
    requires Reachable(s) && s.addrs.Some?
    ensures s.treasuryOwner == Some(s.addrs.value.owner)
  {
    ReachableKeeps(s);
  }

  lemma RolesPass(s: Ledger, e: Env, caller: Address, proposal: Option<Address>)
    ensures AcceptAdminHandover(s, e, caller, proposal).Some? ==>
      AcceptAdminHandover(s, e, caller, proposal).value == s.(addrs := Some(s.addrs.value.(admin := caller)))
    ensures AcceptAdminRotation(s, e, caller, proposal).Some? ==>
      AcceptAdminRotation(s, e, caller, proposal).value == s.(addrs := Some(s.addrs.value.(admin := caller)))
    ensures AcceptTreasuryRotation(s, e, caller, proposal).Some? ==>
      AcceptTreasuryRotation(s, e, caller, proposal).value ==
        s.(treasuryOwner := Some(caller), addrs := Some(s.addrs.value.(owner := caller)))
  {}

  // ------------------------------------------------------------------ deposits

  /** A deposit needs the depositor, the treasury owner, a fresh id and the funds, and moves them. */
  lemma DepositIff(s: Ledger, e: Env, from: Address, amount: int, id: Digest)
    requires Reachable(s)
    ensures Deposit(s, e, from, amount, id).Some? <==>
      && !e.paused && !AllZero(id) && id !in s.depositIds && s.addrs.Some?
      && from in e.auth && s.addrs.value.owner in e.auth && 1 <= amount <= Of(s.balances, from)
  {
    ZeroIs(id);
    if s.addrs.Some? {
      OwnerStored(s);
    }
  }

  lemma DepositLeaves(s: Ledger, t: Ledger, e: Env, from: Address, amount: int, id: Digest, a: Address)
    requires Deposit(s, e, from, amount, id) == Some(t)
    ensures t.depositIds == s.depositIds + {id} && s.addrs.Some?
    ensures Of(t.balances, a) ==
      Of(s.balances, a) + (if a == s.addrs.value.treasury then amount else 0) - (if a == from then amount else 0)
  {}
}
