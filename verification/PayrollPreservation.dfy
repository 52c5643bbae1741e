/** Every entry point of the payroll contract keeps the invariant, so every run does. */
module PayrollPreservation {
  import opened Common
  import opened Token
  import opened PayrollLedger
  import opened PayrollInvariant

  // ------------------------------------------------------------------ one entry point at a time

  function AnyRun(nonce: Digest): PayrollRun {
    PayrollRun(0, 0, 0, 0, 0, nonce, nonce, Unreconciled, nonce)
  }

  function AnyPending(nonce: Digest): PendingRun { PendingRun(0, 0, 0, 0, 0, nonce, nonce) }

  /** Calls that leave the asset settings alone keep what is said of them. */
  lemma AssetsFrame(s: Ledger, t: Ledger)
    requires AssetsOf(s) && t.allowed == s.allowed && t.supported == s.supported
    requires PayoutToken(t) == PayoutToken(s)
    ensures AssetsOf(t)
  {
    assert SupportedAssets(t) == SupportedAssets(s);
  }

  lemma ReserveKeepsRecords(s: Ledger, e: Env, b: Batch)
    requires RecordsOf(s) && s.addrs.Some?
    ensures RecordsOf(Reserve(s, e, b))
  {
    var run := Reserve(s, e, b).pending[s.counter + 1];
    RecordsAdd(s.counter, s.pending, s.executed, s.cancelled, s.runState, run, AnyRun(b.nonce), Submitted);
  }

  lemma ReserveKeepsNonces(s: Ledger, e: Env, b: Batch)
    requires NoncesOf(s) && s.addrs.Some? && b.nonce !in s.runNonce
    ensures NoncesOf(Reserve(s, e, b))
  {
    var t, a := Reserve(s, e, b), s.addrs.value.admin;
    NoncesAdd(s.counter, s.runNonce, s.pending, s.executed, s.sequences, b.nonce, a, t.sequences[a],
              t.pending[s.counter + 1], AnyRun(b.nonce));
  }

  lemma ReserveKeepsConfigured(s: Ledger, e: Env, b: Batch)
    requires s.addrs.Some? && Configured(s, s.addrs.value) && s.counter + 1 !in s.pending && b.expected > 0
    requires CompanyActive(s) && AssetAllowed(s, s.addrs.value.token)
    requires Locked(s, s.addrs.value.token) + b.expected <= I128_MAX
    ensures Configured(Reserve(s, e, b), s.addrs.value)
  {
    var t, a, id := Reserve(s, e, b), s.addrs.value, s.counter + 1;
    AccountedAdd(a.token, s.pending, s.pendingCount, s.locked, id, t.pending[id], t.locked[a.token]);
  }

  lemma ReserveKeeps(s: Ledger, e: Env, b: Batch)
    requires Inv(s) && s.addrs.Some? && b.nonce !in s.runNonce && b.expected > 0
    requires CompanyActive(s) && AssetAllowed(s, s.addrs.value.token)
    requires Locked(s, s.addrs.value.token) + b.expected <= I128_MAX
    ensures Inv(Reserve(s, e, b))
  {
    ReserveKeepsRecords(s, e, b);
    ReserveKeepsNonces(s, e, b);
    ReserveKeepsConfigured(s, e, b);
    AssetsFrame(s, Reserve(s, e, b));
  }

  lemma DisburseKeeps(s: Ledger, e: Env, b: Batch, paid: Balances)
    requires Inv(s) && s.addrs.Some? && b.nonce !in s.runNonce
    ensures Inv(Disburse(s, e, b, paid))
  {
    DisburseKeepsRecords(s, e, b, paid);
    DisburseKeepsNonces(s, e, b, paid);
    AssetsFrame(s, Disburse(s, e, b, paid));
  }

  lemma DisburseKeepsRecords(s: Ledger, e: Env, b: Batch, paid: Balances)
    requires RecordsOf(s) && s.addrs.Some?
    ensures RecordsOf(Disburse(s, e, b, paid))
  {
    RecordsAdd(s.counter, s.pending, s.executed, s.cancelled, s.runState, AnyPending(b.nonce),
               Disburse(s, e, b, paid).executed[s.counter + 1], ReconciliationRequired);
  }

  lemma DisburseKeepsNonces(s: Ledger, e: Env, b: Batch, paid: Balances)
    requires NoncesOf(s) && s.addrs.Some? && b.nonce !in s.runNonce
    ensures NoncesOf(Disburse(s, e, b, paid))
  {
    var t, a := Disburse(s, e, b, paid), s.addrs.value.admin;
    NoncesAdd(s.counter, s.runNonce, s.pending, s.executed, s.sequences, b.nonce, a, t.sequences[a],
              AnyPending(b.nonce), t.executed[s.counter + 1]);
  }

  /** Releasing a pending run's reservation: the subtraction is exact and the count does not saturate. */
  lemma ResolveKeepsConfigured(s: Ledger, id: nat, state: RunState)
    requires s.addrs.Some? && Configured(s, s.addrs.value) && id in s.pending
    ensures Configured(Resolve(s, id, state), s.addrs.value)
    ensures s.pendingCount > 0 && 0 <= Locked(s, s.addrs.value.token) - s.pending[id].total <= I128_MAX
  {
    var a := s.addrs.value;
    AccountedRemove(a.token, s.pending, s.pendingCount, s.locked, id);
  }

  lemma SettleKeeps(s: Ledger, e: Env, id: nat)
    requires Inv(s) && s.addrs.Some? && id in s.pending
    ensures Inv(Settle(s, e, id))
  {
    ResolveKeepsConfigured(s, id, ReconciliationRequired);
    SettleKeepsRecords(s, e, id);
    AssetsFrame(s, Settle(s, e, id));
    NoncesMove(s.counter, s.runNonce, s.pending, s.executed, s.sequences, id, Settle(s, e, id).executed[id]);
  }

  lemma SettleKeepsRecords(s: Ledger, e: Env, id: nat)
    requires RecordsOf(s) && s.addrs.Some? && id in s.pending
    ensures RecordsOf(Settle(s, e, id))
  {
    RecordsMove(s.counter, s.pending, s.executed, s.cancelled, s.runState, id, Settle(s, e, id).executed[id],
                CancelledRun(0, 0, 0, "", 0, 0, s.pending[id].draft));
  }

  lemma WithdrawKeeps(s: Ledger, e: Env, id: nat, reason: string)
    requires Inv(s) && s.addrs.Some? && id in s.pending
    ensures Inv(Withdraw(s, e, id, reason))
  {
    ResolveKeepsConfigured(s, id, Cancelled);
    WithdrawKeepsRecords(s, e, id, reason);
    AssetsFrame(s, Withdraw(s, e, id, reason));
    NoncesMove(s.counter, s.runNonce, s.pending, s.executed, s.sequences, id, AnyRun(s.pending[id].nonce));
  }

  lemma WithdrawKeepsRecords(s: Ledger, e: Env, id: nat, reason: string)
    requires RecordsOf(s) && s.addrs.Some? && id in s.pending
    ensures RecordsOf(Withdraw(s, e, id, reason))
  {
    RecordsMove(s.counter, s.pending, s.executed, s.cancelled, s.runState, id, AnyRun(s.pending[id].nonce),
                Withdraw(s, e, id, reason).cancelled[id]);
  }

  lemma CorrectKeeps(s: Ledger, id: nat, status: Reconciliation)
    requires Inv(s) && s.addrs.Some? && id in s.executed
    ensures Inv(Correct(s, id, status))
  {
    var x, t := s.executed[id].(status := status), Correct(s, id, status);
    RecordsRewrite(s.counter, s.pending, s.executed, s.cancelled, s.runState, id, x, StateFor(status));
    NoncesRewrite(s.counter, s.runNonce, s.pending, s.executed, s.sequences, id, x);
    AssetsFrame(s, t);
  }

  lemma RestateKeeps(s: Ledger, id: nat, next: RunState)
    requires Inv(s) && s.addrs.Some? && id in s.runState && !Terminal(s.runState[id])
    ensures Inv(s.(runState := s.runState[id := next]))
  {
    RecordsRestate(s.counter, s.pending, s.executed, s.cancelled, s.runState, id, next);
    AssetsFrame(s, s.(runState := s.runState[id := next]));
  }

  lemma AnnotateKeeps(s: Ledger, id: nat, digest: Digest)
    requires Inv(s) && s.addrs.Some? && id in s.executed
    ensures Inv(Annotate(s, id, digest))
  {
    var x, t := s.executed[id].(metadata := digest), Annotate(s, id, digest);
    AnnotateKeepsRecords(s, id, digest);
    NoncesRewrite(s.counter, s.runNonce, s.pending, s.executed, s.sequences, id, x);
    AssetsFrame(s, t);
  }

  lemma AnnotateKeepsRecords(s: Ledger, id: nat, digest: Digest)
    requires RecordsOf(s) && id in s.executed
    ensures RecordsOf(Annotate(s, id, digest))
  {
    var x := s.executed[id].(metadata := digest);
    assert s.runState[id := s.runState[id]] == s.runState;
    RecordsRewrite(s.counter, s.pending, s.executed, s.cancelled, s.runState, id, x, s.runState[id]);
  }

  lemma InitializeKeeps(s: Ledger, a: Addresses)
    requires Inv(s) && Initialize(s, a).Some?
    ensures Inv(Initialize(s, a).value)
  {
    var t := Initialize(s, a).value;
    assert Configured(t, a) by {
      assert Totals(map[]) == map[];
      assert Accounted(a.token, map[], 0, map[]);
    }
    InitialAssets(s, t, a.token);
  }

  /** Before initialization no list is stored and nothing is allowed; afterwards the payout token is. */
  lemma InitialAssets(s: Ledger, t: Ledger, token: Address)
    requires AssetsOf(s) && s.supported.None? && t.supported.None?
    requires PayoutToken(s).None? && PayoutToken(t) == Some(token) && t.allowed == s.allowed[token := true]
    ensures AssetsOf(t)
  {
    assert SupportedAssets(s) == [] && SupportedAssets(t) == [token];
    assert forall x :: x in s.allowed && s.allowed[x] ==> x in SupportedAssets(s);
  }

  /** The two agree on all but money and drafts. */
  ghost predicate OnlyMoney(s: Ledger, t: Ledger) {
    t == s.(balances := t.balances, emergency := t.emergency, depositIds := t.depositIds, committed := t.committed)
  }

  /** The two agree on every record of runs, nonces, reservations and assets. */
  ghost predicate SameBooks(s: Ledger, t: Ledger) {
    && t == s.(addrs := t.addrs, treasuryOwner := t.treasuryOwner, companyState := t.companyState)
    && PayoutToken(t) == PayoutToken(s)
  }

  lemma BooksKeep(s: Ledger, t: Ledger)
    requires Inv(s) && SameBooks(s, t) && s.addrs.Some?
    requires t.treasuryOwner == Some(t.addrs.value.owner)
    requires t.companyState == s.companyState || s.pendingCount == 0
    ensures Inv(t)
  {
    AssetsFrame(s, t);
  }

  /** Drafts, deposits, emergencies and token moves touch neither the books nor the settings. */
  lemma MoneyKeeps(s: Ledger, t: Ledger)
    requires Inv(s) && OnlyMoney(s, t)
    ensures Inv(t)
  {
    AssetsFrame(s, t);
  }

  lemma SetAssetKeepsAssets(s: Ledger, e: Env, asset: Address, allowed: bool)
    requires AssetsOf(s) && SetAssetAllowed(s, e, asset, allowed).Some?
    ensures AssetsOf(SetAssetAllowed(s, e, asset, allowed).value)
  {
    var assets := SupportedAssets(s.(allowed := s.allowed[asset := allowed]));
    assert Distinct(assets);
  }

  // ------------------------------------------------------------------ what the guards establish

  lemma PrepareKeeps(s: Ledger, t: Ledger, e: Env, b: Batch)
    requires Inv(s) && Prepare(s, e, b) == Some(t)
    ensures Inv(t)
  {
    TotalPositive(b.amounts);
    ReserveKeeps(s, e, b);
  }

  lemma FinalizeKeeps(s: Ledger, t: Ledger, e: Env, admin: Address, id: nat, expired: bool)
    requires Inv(s) && Finalize(s, e, admin, id, expired) == Some(t)
    ensures Inv(t)
  {
    SettleKeeps(s, e, id);
  }

  lemma CancelKeeps(s: Ledger, t: Ledger, e: Env, admin: Address, id: nat, reason: string)
    requires Inv(s) && Cancel(s, e, admin, id, reason) == Some(t)
    ensures Inv(t)
  {
    WithdrawKeeps(s, e, id, reason);
  }

  lemma ExecuteKeeps(s: Ledger, t: Ledger, e: Env, b: Batch, oracle: seq<bool>)
    requires Inv(s) && Execute(s, e, b, oracle) == Some(t)
    ensures Inv(t)
  {
    DisburseKeeps(s, e, b, PayAll(s.balances, s.addrs.value.treasury, b.employees, b.amounts).value);
  }

  /** With every state stored, the current state is the stored one. */
  lemma StoredState(s: Ledger, id: nat)
    requires RecordsOf(s)
    ensures CurrentState(s, id) == if id in s.runState then Some(s.runState[id]) else None
  {}

  lemma TransitionMoves(s: Ledger, e: Env, admin: Address, id: nat, next: RunState)
    requires RecordsOf(s) && Transition(s, e, admin, id, next).Some?
    ensures s.addrs.Some? && id in s.runState && !Terminal(s.runState[id])
    ensures Transition(s, e, admin, id, next).value == s.(runState := s.runState[id := next])
  {
    StoredState(s, id);
  }

  lemma SetAssetKeeps(s: Ledger, e: Env, asset: Address, allowed: bool)
    requires Inv(s) && SetAssetAllowed(s, e, asset, allowed).Some?
    ensures Inv(SetAssetAllowed(s, e, asset, allowed).value)
  {
    SetAssetKeepsAssets(s, e, asset, allowed);
  }

  lemma RunCallKeeps(s: Ledger, t: Ledger, e: Env, c: RunCall)
    requires Inv(s) && TryRun(s, e, c) == Some(t)
    ensures Inv(t)
  {
    match c
    case PrepareCall(b) => PrepareKeeps(s, t, e, b);
    case FinalizeCall(admin, id, expired) => FinalizeKeeps(s, t, e, admin, id, expired);
    case CancelCall(admin, id, reason) => CancelKeeps(s, t, e, admin, id, reason);
    case ExecuteCall(b, oracle) => ExecuteKeeps(s, t, e, b, oracle);
  }

  lemma RecordCallKeeps(s: Ledger, t: Ledger, e: Env, c: RecordCall)
    requires Inv(s) && TryRecord(s, e, c) == Some(t)
    ensures Inv(t)
  {
    match c
    case ReconcileCall(admin, id, status) => CorrectKeeps(s, id, status);
    case TransitionCall(admin, id, next) =>
      TransitionMoves(s, e, admin, id, next);
      RestateKeeps(s, id, next);
    case SetMetadataCall(admin, id, digest) => AnnotateKeeps(s, id, digest);
    case CommitCall(admin, digest) => MoneyKeeps(s, t);
  }

  predicate ChangesRole(c: SettingsCall) { !c.InitializeCall? && !c.SetAssetCall? }

  lemma RoleCallFrame(s: Ledger, t: Ledger, e: Env, c: SettingsCall)
    requires TrySettings(s, e, c) == Some(t) && ChangesRole(c)
    ensures SameBooks(s, t) && s.addrs.Some? && t.addrs.Some?
    ensures s.treasuryOwner == Some(s.addrs.value.owner) ==> t.treasuryOwner == Some(t.addrs.value.owner)
    ensures t.companyState == s.companyState || s.pendingCount == 0
  {}

  lemma RoleCallKeeps(s: Ledger, t: Ledger, e: Env, c: SettingsCall)
    requires Inv(s) && TrySettings(s, e, c) == Some(t) && ChangesRole(c)
    ensures Inv(t)
  {
    RoleCallFrame(s, t, e, c);
    BooksKeep(s, t);
  }

  lemma SettingsCallKeeps(s: Ledger, t: Ledger, e: Env, c: SettingsCall)
    requires Inv(s) && TrySettings(s, e, c) == Some(t)
    ensures Inv(t)
  {
    match c
    case InitializeCall(a) => InitializeKeeps(s, a);
    case SetAssetCall(asset, allowed) => SetAssetKeeps(s, e, asset, allowed);
    case _ => RoleCallKeeps(s, t, e, c);
  }

  lemma TreasuryCallFrame(s: Ledger, t: Ledger, e: Env, c: TreasuryCall)
    requires TryTreasury(s, e, c) == Some(t)
    ensures OnlyMoney(s, t)
  {}

  lemma TreasuryCallKeeps(s: Ledger, t: Ledger, e: Env, c: TreasuryCall)
    requires Inv(s) && TryTreasury(s, e, c) == Some(t)
    ensures Inv(t)
  {
    TreasuryCallFrame(s, t, e, c);
    MoneyKeeps(s, t);
  }

  lemma StepKeeps(s: Ledger, ev: Event)
    requires Inv(s)
    ensures Inv(Step(s, ev))
  {
    var t := Step(s, ev);
    if Try(s, ev).Some? {
      match ev.call
      case OnRun(c) => RunCallKeeps(s, t, ev.env, c);
      case OnRecord(c) => RecordCallKeeps(s, t, ev.env, c);
      case OnSettings(c) => SettingsCallKeeps(s, t, ev.env, c);
      case OnTreasury(c) => TreasuryCallKeeps(s, t, ev.env, c);
    }
  }

  lemma GenesisHolds(balances: Balances)
    ensures Inv(Genesis(balances))
  {
    var s := Genesis(balances);
    assert Counts(s.sequences) == map[];
  }

  lemma {:induction false} RunKeeps(s: Ledger, events: seq<Event>)
    requires Inv(s)
    ensures Inv(Run(s, events))
  {
    if events != [] {
      RunKeeps(s, events[..|events| - 1]);
      StepKeeps(Run(s, events[..|events| - 1]), events[|events| - 1]);
    }
  }

  /** The ledgers that some sequence of calls leads to from a fresh contract. */
  ghost predicate Reachable(s: Ledger) { exists balances, events :: s == Run(Genesis(balances), events) }

  /** The books agree after any run of calls, whoever makes them and whatever the oracles answer. */
  lemma ReachableKeeps(s: Ledger)
    requires Reachable(s)
    ensures Inv(s)
  {
    var balances, events :| s == Run(Genesis(balances), events);
    GenesisHolds(balances);
    RunKeeps(Genesis(balances), events);
  }

  lemma {:induction false} RunConcat(s: Ledger, first: seq<Event>, second: seq<Event>)
    ensures Run(s, first + second) == Run(Run(s, first), second)
  {
    if second == [] {
      assert first + second == first;
    } else {
      var n := |second| - 1;
      assert (first + second)[..|first + second| - 1] == first + second[..n];
      RunConcat(s, first, second[..n]);
    }
  }

  lemma ReachableRun(s: Ledger, events: seq<Event>)
    requires Reachable(s)
    ensures Reachable(Run(s, events))
  {
    var balances, before :| s == Run(Genesis(balances), before);
    RunConcat(Genesis(balances), before, events);
  }

  lemma RunOne(s: Ledger, ev: Event)
    ensures Run(s, [ev]) == Step(s, ev)
  {
    var one := [ev];
    assert one[..0] == [] && Run(s, one[..0]) == s;
    assert Run(s, one) == Step(s, ev);
  }

  lemma ReachableTry(s: Ledger, ev: Event)
    requires Reachable(s) && Try(s, ev).Some?
    ensures Reachable(Try(s, ev).value)
  {
    RunOne(s, ev);
    ReachableRun(s, [ev]);
  }
}
