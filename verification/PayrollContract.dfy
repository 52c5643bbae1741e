/**
 The payroll entry points as the contract runs them: storage is read and overwritten step by step,
 loops scan the batch and move the tokens, and an abort puts the storage back.
 */
module PayrollContract {
  import opened Common
  import opened Token
  import opened PayrollLedger
  import opened PayrollInvariant
  import opened PayrollPreservation
  import opened PayrollRuns
  import opened PayrollRecords
  import opened PayrollStates
  import opened PayrollTreasury
  import opened PayrollAcceptance
  import opened PayrollEmergency

  const U128_SIZE: int := 0x1_0000_0000_0000_0000_0000_0000_0000_0000

  // ------------------------------------------------------------------ scans over a batch

  /** `validate_no_duplicate_employees`: a pairwise scan. */
  method NoDuplicates(employees: seq<Address>) returns (ok: bool)
    ensures ok <==> Distinct(employees)
  {
    for i := 0 to |employees|
      invariant forall x, y :: 0 <= x < i && x < y < |employees| ==> employees[x] != employees[y]
    {
      for j := i + 1 to |employees|
        invariant forall y :: i < y < j ==> employees[i] != employees[y]
      {
        if employees[i] == employees[j] {
          return false;
        }
      }
    }
    return true;
  }

  lemma {:induction false} PartialTotal(amounts: seq<int>, n: nat)
    requires n <= |amounts| && AllPositive(amounts)
    ensures 0 <= Total(amounts[..n]) <= Total(amounts)
    decreases |amounts|
  {
    if n < |amounts| {
      var rest := amounts[..|amounts| - 1];
      assert rest[..n] == amounts[..n];
      PartialTotal(rest, n);
    } else {
      assert amounts[..n] == amounts;
      TotalBounds(amounts);
    }
  }

  /** The running total in 128-bit arithmetic; `None` for an amount that is not positive or an overflow. */
  method SumAmounts(amounts: seq<int>) returns (total: Option<int>)
    ensures total.Some? <==> AllPositive(amounts) && InI128(Total(amounts))
    ensures total.Some? ==> total.value == Total(amounts)
  {
    var sum := 0;
    for i := 0 to |amounts|
      invariant AllPositive(amounts[..i])
      invariant 0 <= sum == Total(amounts[..i]) <= I128_MAX
    {
      if amounts[i] <= 0 {
        return None;
      }
      assert amounts[..i + 1][..i] == amounts[..i];
      if sum + amounts[i] > I128_MAX {
        if AllPositive(amounts) {
          PartialTotal(amounts, i + 1);
        }
        return None;
      }
      sum := sum + amounts[i];
    }
    assert amounts[..|amounts|] == amounts;
    return Some(sum);
  }

  function Power256(n: nat): int { if n == 0 then 1 else 256 * Power256(n - 1) }

  lemma {:induction false} Power256Grows(i: nat, n: nat)
    requires i <= n
    ensures 0 < Power256(i) <= Power256(n)
    decreases n
  {
    if i < n {
      Power256Grows(i, n - 1);
    } else if n > 0 {
      Power256Grows(n - 1, n - 1);
    }
  }

  /** `nonce_to_u256`: sixteen shifts of a 128-bit word, none of which loses a bit. */
  method NonceToU256(nonce: Digest) returns (value: int)
    requires WellFormed(nonce)
    ensures value == NoncePrefix(nonce)
  {
    value := 0;
    assert Power256(8) == 0x1_0000_0000_0000_0000;
    assert Power256(16) == U128_SIZE;
    for i := 0 to 16
      invariant 0 <= value < Power256(i) && value == BigEndian(nonce.bytes[..i])
    {
      Power256Grows(i + 1, 16);
      assert nonce.bytes[..i + 1][..i] == nonce.bytes[..i];
      value := (value * 256) % U128_SIZE + nonce.bytes[i];
    }
  }

  /** The position of x, or the length, as `first_index_of` finds it. */
  method FindAsset(xs: seq<Address>, x: Address) returns (at: nat)
    ensures at == FirstIndexOf(xs, x)
  {
    at := 0;
    while at < |xs| && xs[at] != x
      invariant at <= |xs| && forall i :: 0 <= i < at ==> xs[i] != x
    {
      at := at + 1;
    }
    assert FirstIndexOf(xs, x) <= |xs|;
  }

  /** Relisting adds or removes exactly the one asset. */
  lemma RelistedExact(assets: seq<Address>, asset: Address, allowed: bool)
    requires Distinct(assets)
    ensures Distinct(Relisted(assets, asset, allowed))
    ensures forall x :: x in Relisted(assets, asset, allowed) <==> if x == asset then allowed else x in assets
  {}

  method Relist(assets: seq<Address>, asset: Address, allowed: bool) returns (list: seq<Address>)
    ensures list == Relisted(assets, asset, allowed)
    ensures Distinct(assets) ==> Distinct(list) && forall x :: x in list <==> if x == asset then allowed else x in assets
  {
    if Distinct(assets) {
      RelistedExact(assets, asset, allowed);
    }
    list := assets;
    var at := FindAsset(list, asset);
    if allowed && at == |list| {
      list := list + [asset];
    } else if !allowed && at < |list| {
      list := list[..at] + list[at + 1..];
    }
  }

  lemma PayAllSnoc(b: Balances, from: Address, tos: seq<Address>, amounts: seq<int>, n: nat)
    requires n < |tos| == |amounts|
    ensures var before := PayAll(b, from, tos[..n], amounts[..n]);
      PayAll(b, from, tos[..n + 1], amounts[..n + 1]) ==
        if before.None? then None else Transfer(before.value, from, tos[n], amounts[n])
  {
    assert tos[..n + 1][..n] == tos[..n] && amounts[..n + 1][..n] == amounts[..n];
  }

  /** Once a payment of a series fails, the series has failed. */
  lemma {:induction false} PayAllStuck(b: Balances, from: Address, tos: seq<Address>, amounts: seq<int>, n: nat)
    requires n <= |tos| == |amounts| && PayAll(b, from, tos[..n], amounts[..n]).None?
    ensures PayAll(b, from, tos, amounts).None?
    decreases |tos|
  {
    if n < |tos| {
      var k := |tos| - 1;
      assert tos[..k][..n] == tos[..n] && amounts[..k][..n] == amounts[..n];
      PayAllStuck(b, from, tos[..k], amounts[..k], n);
    } else {
      assert tos[..n] == tos && amounts[..n] == amounts;
    }
  }

  // ------------------------------------------------------------------ the contract

  ghost predicate TypedNonces(sequences: map<Address, NonceSequence>) {
    forall a :: a in sequences ==> WellFormed(sequences[a].last)
  }

  lemma EnrollTyped(s: Ledger, e: Env, nonce: Digest)
    requires TypedNonces(s.sequences) && WellFormed(nonce) && s.addrs.Some?
    ensures TypedNonces(Enroll(s, e, nonce).sequences)
  {}

  function Payout(s: Ledger, b: Batch): Option<Balances>
    requires s.addrs.Some? && |b.employees| == |b.amounts|
  {
    PayAll(s.balances, s.addrs.value.treasury, b.employees, b.amounts)
  }

  /** The checks a batch makes once it has begun to write. */
  predicate CanPay(s: Ledger, e: Env, b: Batch, oracle: seq<bool>)
    requires s.addrs.Some? && |b.employees| == |b.amounts|
  {
    && Of(s.balances, s.addrs.value.treasury) >= b.expected && s.addrs.value.treasury in e.auth
    && (forall i :: 0 <= i < b.proofs ==> Passes(oracle, i))
    && Payout(s, b).Some?
  }

  // ------------------------------------------------------------------ what the calls mean

  lemma GenesisReachable(balances: Balances)
    ensures Reachable(Genesis(balances))
  {
    assert Run(Genesis(balances), []) == Genesis(balances);
  }

  lemma RunCallReachable(s: Ledger, e: Env, c: RunCall)
    requires Reachable(s)
    ensures Reachable(After(s, TryRun(s, e, c)))
  {
    if TryRun(s, e, c).Some? {
      ReachableTry(s, Event(e, OnRun(c)));
    }
  }

  lemma RecordCallReachable(s: Ledger, e: Env, c: RecordCall)
    requires Reachable(s)
    ensures Reachable(After(s, TryRecord(s, e, c)))
  {
    if TryRecord(s, e, c).Some? {
      ReachableTry(s, Event(e, OnRecord(c)));
    }
  }

  lemma SettingsCallReachable(s: Ledger, e: Env, c: SettingsCall)
    requires Reachable(s)
    ensures Reachable(After(s, TrySettings(s, e, c)))
  {
    if TrySettings(s, e, c).Some? {
      ReachableTry(s, Event(e, OnSettings(c)));
    }
  }

  lemma TreasuryCallReachable(s: Ledger, e: Env, c: TreasuryCall)
    requires Reachable(s)
    ensures Reachable(After(s, TryTreasury(s, e, c)))
  {
    if TryTreasury(s, e, c).Some? {
      ReachableTry(s, Event(e, OnTreasury(c)));
    }
  }

  /** Every employee but the treasury has gained its amount, and a treasury off the payroll lost the total. */
  ghost predicate Paid(s: Ledger, t: Ledger, b: Batch) {
    && s.addrs.Some? && |b.employees| == |b.amounts|
    && (forall i :: 0 <= i < |b.employees| && b.employees[i] != s.addrs.value.treasury ==>
          Of(t.balances, b.employees[i]) == Of(s.balances, b.employees[i]) + b.amounts[i])
    && (s.addrs.value.treasury !in b.employees ==>
          Of(t.balances, s.addrs.value.treasury) == Of(s.balances, s.addrs.value.treasury) - b.expected)
  }

  /** A resolved run leaves the pending set with its exact reservation, and moves no token. */
  ghost predicate Released(s: Ledger, t: Ledger, id: nat) {
    && id in s.pending && id !in t.pending && s.addrs.Some?
    && t.pendingCount == s.pendingCount - 1
    && Locked(t, s.addrs.value.token) == Locked(s, s.addrs.value.token) - s.pending[id].total == Reserved(t.pending)
    && t.balances == s.balances && TermsOf(t, id) == TermsOf(s, id)
  }

  lemma AssetsExact(s: Ledger)
    requires Reachable(s)
    ensures Distinct(SupportedAssets(s)) && forall x :: x in SupportedAssets(s) <==> AssetAllowed(s, x)
  {
    SupportedAssetsExact(s, 0);
    forall x
      ensures x in SupportedAssets(s) <==> AssetAllowed(s, x)
    {
      SupportedAssetsExact(s, x);
    }
  }

  predicate Settled(s: Ledger, id: nat) {
    && id in s.executed && s.executed[id].status == Reconciled
    && id in s.runState && s.runState[id] == Completed
  }

  lemma SettledForever(s: Ledger, id: nat)
    requires Reachable(s) && id in s.executed && s.executed[id].status == Reconciled
    ensures forall events :: Settled(Run(s, events), id)
  {
    forall events
      ensures Settled(Run(s, events), id)
    {
      ReconciledFinal(s, events, id);
    }
  }

  /** The stored request has been paid by the treasury to its recipient, and to nobody else. */
  ghost predicate Withdrawn(s: Ledger, t: Ledger) {
    && s.addrs.Some? && s.emergency.Some? && t.emergency == None
    && forall a :: Of(t.balances, a) == Of(s.balances, a)
         + (if a == s.emergency.value.recipient then s.emergency.value.amount else 0)
         - (if a == s.addrs.value.treasury then s.emergency.value.amount else 0)
  }

  lemma ApprovedWithdraws(s: Ledger, t: Ledger, e: Env, admin: Address)
    requires ApproveEmergency(s, e, admin) == Some(t)
    ensures Withdrawn(s, t)
  {
    ApproveMoves(s, t, e, admin, 0);
    forall a
      ensures Of(t.balances, a) == Of(s.balances, a)
        + (if a == s.emergency.value.recipient then s.emergency.value.amount else 0)
        - (if a == s.addrs.value.treasury then s.emergency.value.amount else 0)
    {
      ApproveMoves(s, t, e, admin, a);
    }
  }

  /** A prepared batch is pending under the next id with its terms, and its total is reserved. */
  ghost predicate ReservedFor(s: Ledger, t: Ledger, b: Batch) {
    && s.addrs.Some? && t.pendingCount == s.pendingCount + 1
    && Locked(t, s.addrs.value.token) == Locked(s, s.addrs.value.token) + b.expected == Reserved(t.pending)
    && s.counter + 1 in t.pending && TermsOf(t, s.counter + 1) == Some(TermsAsked(b, s.counter + 1))
    && t.balances == s.balances
  }

  lemma PrepareReserves(s: Ledger, t: Ledger, e: Env, b: Batch)
    requires Reachable(s) && Prepare(s, e, b) == Some(t)
    ensures ReservedFor(s, t, b)
  {
    RunCallReachable(s, e, PrepareCall(b));
    ReservationExact(t);
    ReachableSelfNamed(s);
    IdsPartitioned(s, s.counter + 1);
    NewTerms(s, t, e, PrepareCall(b), s.counter + 1);
  }

  lemma ResolveReleases(s: Ledger, t: Ledger, e: Env, c: RunCall)
    requires Reachable(s) && TryRun(s, e, c) == Some(t) && (c.FinalizeCall? || c.CancelCall?)
    ensures Released(s, t, c.id)
  {
    RunCallReachable(s, e, c);
    ReservationExact(t);
    ResolveAcceptedExactly(s, e, c.admin, c.id);
    PendingMeans(s, c.id);
    ReachableSelfNamed(s);
    RunCallTerms(s, t, e, c, c.id);
  }

  class Payroll {
    var store: Ledger

    /** The ledger is one that calls lead to, so every theorem over runs holds of it; stored nonces are 32 bytes. */
    ghost predicate Valid()
      reads this
    {
      Reachable(store) && TypedNonces(store.sequences)
    }

    constructor (balances: Balances)
      ensures Valid() && store == Genesis(balances)
    {
      store := Genesis(balances);
      GenesisReachable(balances);
    }

    method ValidateNonceMonotonicity(employer: Address, nonce: Digest) returns (ok: bool)
      requires TypedNonces(store.sequences) && WellFormed(nonce)
      ensures ok <==> NonceAdvances(store, employer, nonce)
    {
      if employer !in store.sequences {
        return true;
      }
      var last := store.sequences[employer].last;
      if nonce == last {
        return false;
      }
      var value := NonceToU256(nonce);
      var lastValue := NonceToU256(last);
      return value > lastValue;
    }

    /** The checks before the first write of a batch. */
    method ValidateBatch(e: Env, b: Batch) returns (ok: bool)
      requires TypedNonces(store.sequences) && WellFormed(b.nonce)
      ensures ok <==> BatchAccepted(store, e, b)
    {
      if || !CompanyActive(store) || !b.supported || |b.amounts| != b.proofs || |b.employees| != b.proofs
         || b.proofs == 0 || b.proofs > MAX_BATCH || b.nonce in store.runNonce
         || (b.draft.Some? && b.draft.value !in store.committed)
      {
        return false;
      }
      var distinct := NoDuplicates(b.employees);
      var total := SumAmounts(b.amounts);
      if !distinct || total != Some(b.expected) || store.addrs.None? {
        return false;
      }
      var advances := ValidateNonceMonotonicity(store.addrs.value.admin, b.nonce);
      return advances && store.addrs.value.admin in e.auth && AssetAllowed(store, store.addrs.value.token)
        && store.counter < U64_MAX;
    }

    method DeriveRunId() returns (id: nat)
      modifies this
      ensures store == old(store).(counter := id) && id == old(store).counter + 1
    {
      id := store.counter + 1;
      store := store.(counter := id);
    }

    method UpdateNonceSequence(e: Env, employer: Address, nonce: Digest)
      modifies this
      ensures store == old(store).(sequences := SequencesWith(old(store).sequences, employer, e.now, nonce))
    {
      var next := NonceSequence(1, e.now, nonce);
      if employer in store.sequences {
        next := store.sequences[employer].(
          current := store.sequences[employer].current + 1, acceptedAt := e.now, last := nonce);
      }
      store := store.(sequences := store.sequences[employer := next]);
    }

    method ConsumeNonce(e: Env, nonce: Digest) returns (id: nat)
      requires store.addrs.Some?
      modifies this
      ensures store == Enroll(old(store), e, nonce) && id == store.counter
    {
      id := DeriveRunId();
      store := store.(runNonce := store.runNonce[nonce := id]);
      UpdateNonceSequence(e, store.addrs.value.admin, nonce);
    }

    method AddPending(run: PendingRun, token: Address, reserved: int)
      modifies this
      ensures store == old(store).(
        pending := old(store).pending[run.id := run],
        runState := old(store).runState[run.id := Submitted],
        pendingCount := old(store).pendingCount + 1,
        locked := old(store).locked[token := reserved])
    {
      store := store.(pending := store.pending[run.id := run]);
      store := store.(runState := store.runState[run.id := Submitted]);
      store := store.(pendingCount := store.pendingCount + 1);
      store := store.(locked := store.locked[token := reserved]);
    }

    /** Reserves exactly the batch total under the next id, and moves no token. */
    method PreparePayrollRun(e: Env, b: Batch) returns (ok: bool)
      requires Valid() && WellFormed(b.nonce)
      modifies this
      ensures Valid() && store == After(old(store), Prepare(old(store), e, b))
      ensures ok <==> Preparable(old(store), e, b)
      ensures ok ==> ReservedFor(old(store), store, b)
    {
      ghost var before := store;
      RunCallReachable(store, e, PrepareCall(b));
      PrepareIff(store, e, b);
      var accepted := ValidateBatch(e, b);
      if !accepted || store.pendingCount >= U32_MAX {
        return false;
      }
      var token := store.addrs.value.token;
      var reserved := Locked(store, token) + b.expected;
      if !InI128(reserved) {
        return false;
      }
      EnrollTyped(store, e, b.nonce);
      var id := ConsumeNonce(e, b.nonce);
      var run := PendingRun(id, e.now, store.addrs.value.admin, b.expected, b.proofs, DraftOf(b), b.nonce);
      AddPending(run, token, reserved);
      PrepareReserves(before, store, e, b);
      return true;
    }

    /** Accepted exactly for pending runs; releases exactly the run's reservation and pays nobody. */
    method FinalizePayrollRun(e: Env, admin: Address, id: nat, expired: bool) returns (ok: bool)
      requires Valid()
      modifies this
      ensures Valid() && store == After(old(store), Finalize(old(store), e, admin, id, expired))
      ensures ok <==>
        Signed(old(store), e, admin) && id in old(store).pending && id != 0xFFFF_FFFF_FFFF_FFFF && !e.paused && !expired
      ensures ok ==> Released(old(store), store, id) && id in store.executed
    {
      ghost var before := store;
      RunCallReachable(store, e, FinalizeCall(admin, id, expired));
      ResolveAcceptedExactly(store, e, admin, id);
      if e.paused || id == U64_MAX || !IsAdmin(store, e, admin) || id !in store.pending || expired || id in store.executed {
        return false;
      }
      var p, token := store.pending[id], store.addrs.value.token;
      if !InI128(Locked(store, token) - p.total) {
        return false;
      }
      store := store.(locked := store.locked[token := Locked(store, token) - p.total]);
      store := store.(pending := store.pending - {id});
      store := store.(runState := store.runState[id := ReconciliationRequired]);
      store := store.(pendingCount := SaturatingDecrement(store.pendingCount));
      store := store.(executed := store.executed[id := PayrollRun(
        id, e.now, admin, p.total, p.employees, p.draft, p.nonce, Unreconciled, ZeroDigest())]);
      ResolveReleases(before, store, e, FinalizeCall(admin, id, expired));
      return true;
    }

    /** The same, also while the system is paused: an escape hatch that needs only a reason. */
    method CancelPayrollRun(e: Env, admin: Address, id: nat, reason: string) returns (ok: bool)
      requires Valid()
      modifies this
      ensures Valid() && store == After(old(store), Cancel(old(store), e, admin, id, reason))
      ensures ok <==>
        Signed(old(store), e, admin) && id in old(store).pending && id != 0xFFFF_FFFF_FFFF_FFFF && |reason| > 0
      ensures ok ==> Released(old(store), store, id) && id in store.cancelled
    {
      ghost var before := store;
      RunCallReachable(store, e, CancelCall(admin, id, reason));
      ResolveAcceptedExactly(store, e, admin, id);
      if id == U64_MAX || reason == "" || !IsAdmin(store, e, admin) || id in store.executed || id !in store.pending {
        return false;
      }
      var p, token := store.pending[id], store.addrs.value.token;
      if !InI128(Locked(store, token) - p.total) {
        return false;
      }
      store := store.(locked := store.locked[token := Locked(store, token) - p.total]);
      store := store.(cancelled := store.cancelled[id := CancelledRun(
        id, e.now, admin, reason, p.employees, p.total, p.draft)]);
      store := store.(pending := store.pending - {id});
      store := store.(runState := store.runState[id := Cancelled]);
      store := store.(pendingCount := SaturatingDecrement(store.pendingCount));
      ResolveReleases(before, store, e, CancelCall(admin, id, reason));
      return true;
    }

    /** The verify-and-transfer loop; on failure the tokens already moved stay moved. */
    method PayEmployees(b: Batch, oracle: seq<bool>, treasury: Address) returns (ok: bool)
      requires |b.employees| == |b.amounts| == b.proofs
      modifies this
      ensures store == old(store).(balances := store.balances)
      ensures ok <==>
        (forall i :: 0 <= i < b.proofs ==> Passes(oracle, i))
        && PayAll(old(store).balances, treasury, b.employees, b.amounts).Some?
      ensures ok ==> PayAll(old(store).balances, treasury, b.employees, b.amounts) == Some(store.balances)
    {
      ghost var start := store.balances;
      for i := 0 to b.proofs
        invariant store == old(store).(balances := store.balances)
        invariant forall k :: 0 <= k < i ==> Passes(oracle, k)
        invariant PayAll(start, treasury, b.employees[..i], b.amounts[..i]) == Some(store.balances)
      {
        if !Passes(oracle, i) {
          return false;
        }
        var moved := Transfer(store.balances, treasury, b.employees[i], b.amounts[i]);
        PayAllSnoc(start, treasury, b.employees, b.amounts, i);
        if moved.None? {
          PayAllStuck(start, treasury, b.employees, b.amounts, i + 1);
          return false;
        }
        store := store.(balances := moved.value);
      }
      assert b.employees[..b.proofs] == b.employees && b.amounts[..b.proofs] == b.amounts;
      return true;
    }

    /** The writes of a batch, from consuming its draft to recording the run. */
    method PayAndRecord(e: Env, b: Batch, oracle: seq<bool>) returns (ok: bool)
      requires store.addrs.Some? && |b.employees| == |b.amounts| == b.proofs
      modifies this
      ensures ok <==> CanPay(old(store), e, b, oracle)
      ensures ok ==> store == Disburse(old(store), e, b, Payout(old(store), b).value)
    {
      var treasury := store.addrs.value.treasury;
      ConsumeDraft(b.draft);
      var id := ConsumeNonce(e, b.nonce);
      if Of(store.balances, treasury) < b.expected || treasury !in e.auth {
        return false;
      }
      ok := PayEmployees(b, oracle, treasury);
      if ok {
        RecordRun(PayrollRun(
          id, e.now, store.addrs.value.admin, b.expected, b.proofs, DraftOf(b), b.nonce, Unreconciled, ZeroDigest()));
      }
    }

    method ConsumeDraft(draft: Option<Digest>)
      modifies this
      ensures store == old(store).(committed :=
        if draft.Some? then old(store).committed - {draft.value} else old(store).committed)
    {
      if draft.Some? {
        store := store.(committed := store.committed - {draft.value});
      }
    }

    method RecordRun(run: PayrollRun)
      modifies this
      ensures store == old(store).(
        executed := old(store).executed[run.id := run],
        runState := old(store).runState[run.id := ReconciliationRequired])
    {
      store := store.(executed := store.executed[run.id := run]);
      store := store.(runState := store.runState[run.id := ReconciliationRequired]);
    }

    /** Succeeds exactly when its checks pass, and then every employee has its amount. */
    method BatchProcessPayroll(e: Env, b: Batch, oracle: seq<bool>) returns (ok: bool)
      requires Valid() && WellFormed(b.nonce)
      modifies this
      ensures Valid() && store == After(old(store), Execute(old(store), e, b, oracle))
      ensures ok <==> Executable(old(store), e, b, oracle)
      ensures ok ==> Paid(old(store), store, b) && Supply(store.balances) == Supply(old(store).balances)
    {
      ghost var before := store;
      ExecuteIff(store, e, b, oracle);
      RunCallReachable(store, e, ExecuteCall(b, oracle));
      if b.nonce == ZeroDigest() || b.draft == Some(ZeroDigest()) {
        return false;
      }
      var accepted := ValidateBatch(e, b);
      if !accepted || e.paused {
        return false;
      }
      var snapshot := store;
      EnrollTyped(store, e, b.nonce);
      ok := PayAndRecord(e, b, oracle);
      if !ok {
        store := snapshot;
      } else {
        BatchPays(before, store, e, b, oracle, 0);
      }
    }

    /** Afterwards the list names exactly the allowed assets, each once. */
    method SetAsset(e: Env, asset: Address, allowed: bool) returns (ok: bool)
      requires Valid()
      modifies this
      ensures ok <==> old(store).addrs.Some? && old(store).addrs.value.admin in e.auth && old(store).pending == map[]
      ensures Valid() && store == After(old(store), SetAssetAllowed(old(store), e, asset, allowed))
      ensures ok ==> (asset in SupportedAssets(store) <==> allowed)
      ensures Distinct(SupportedAssets(store)) && forall x :: x in SupportedAssets(store) <==> AssetAllowed(store, x)
    {
      SettingsCallReachable(store, e, SetAssetCall(asset, allowed));
      SetAssetIff(store, e, asset, allowed);
      AssetsExact(store);
      AssetsExact(After(store, SetAssetAllowed(store, e, asset, allowed)));
      if store.addrs.None? || store.addrs.value.admin !in e.auth || store.pendingCount > 0 {
        return false;
      }
      store := store.(allowed := store.allowed[asset := allowed]);
      var assets := Relist(SupportedAssets(store), asset, allowed);
      store := store.(supported := Some(assets));
      return true;
    }

    /** A run marked Reconciled is settled for ever; a refusal puts back the record already rewritten. */
    method UpdateReconciliationStatus(e: Env, admin: Address, id: nat, status: Reconciliation) returns (ok: bool)
      requires Valid()
      modifies this
      ensures ok <==>
        && !e.paused && Signed(old(store), e, admin) && id in old(store).executed && id in old(store).runState
        && MayRecord(old(store).runState[id], status)
      ensures ok ==> id in store.executed && store.executed[id].status == status
      ensures Valid() && store == After(old(store), UpdateReconciliation(old(store), e, admin, id, status))
      ensures ok && status == Reconciled ==> forall events :: Settled(Run(store, events), id)
    {
      RecordCallReachable(store, e, ReconcileCall(admin, id, status));
      if id in store.executed {
        ReconcileIff(store, e, admin, id, status);
      }
      if e.paused || !IsAdmin(store, e, admin) || id !in store.executed {
        return false;
      }
      var snapshot, current := store, CurrentState(store, id).value;
      if current == Completed {
        return false;
      }
      store := store.(executed := store.executed[id := store.executed[id].(status := status)]);
      var next := StateFor(status);
      if current != next && !TransitionAllowed(current, next) {
        store := snapshot;
        return false;
      }
      store := store.(runState := store.runState[id := next]);
      if status == Reconciled {
        SettledForever(store, id);
      }
      return true;
    }

    /** What is left covers every reservation; a failed transfer puts back the request already cleared. */
    method ApproveEmergencyWithdrawal(e: Env, admin: Address) returns (ok: bool)
      requires Valid()
      modifies this
      ensures Valid() && store == After(old(store), ApproveEmergency(old(store), e, admin))
      ensures ok <==>
        && !e.paused && Signed(old(store), e, admin) && old(store).emergency.Some?
        && old(store).addrs.value.treasury in e.auth
        && old(store).emergency.value.amount <= Spare(old(store)) <= 0x7FFF_FFFF_FFFF_FFFF_FFFF_FFFF_FFFF_FFFF
      ensures ok ==> Covered(store) && Withdrawn(old(store), store)
    {
      ghost var before := store;
      TreasuryCallReachable(store, e, ApproveEmergencyCall(admin));
      ApproveIff(store, e, admin);
      if e.paused || !IsAdmin(store, e, admin) || store.emergency.None? {
        return false;
      }
      var snapshot, request := store, store.emergency.value;
      if request.amount > Available(store) {
        return false;
      }
      store := store.(emergency := None);
      var treasury := store.addrs.value.treasury;
      var moved := Transfer(store.balances, treasury, request.recipient, request.amount);
      if treasury !in e.auth || moved.None? {
        store := snapshot;
        return false;
      }
      store := store.(balances := moved.value);
      ApprovalCovers(before, store, e, admin);
      ApprovedWithdraws(before, store, e, admin);
      return true;
    }
  }
}
