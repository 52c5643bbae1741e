/** Payroll money: what batches pay, what runs conserve, and when the treasury covers its reservations. */
module PayrollTreasury {
  import opened Common
  import opened Token
  import opened PayrollLedger
  import opened PayrollInvariant
  import opened PayrollPreservation
  import opened PayrollRuns

  // ------------------------------------------------------------------ batches

  /** The up-front balance check suffices: no transfer of an accepted batch fails. */
  lemma AcceptedBatchPays(s: Ledger, e: Env, b: Batch, oracle: seq<bool>)
    ensures Execute(s, e, b, oracle).Some? <==> ExecuteAccepted(s, e, b, oracle)
  {
    if ExecuteAccepted(s, e, b, oracle) {
      PayAllFunded(s.balances, s.addrs.value.treasury, b.employees, b.amounts);
    }
  }

  /**
   A batch pays distinct employees exactly their amounts out of the treasury, touches no other
   account and conserves the supply.
   */
  lemma BatchPays(s: Ledger, t: Ledger, e: Env, b: Batch, oracle: seq<bool>, a: Address)
    requires Execute(s, e, b, oracle) == Some(t)
    ensures Distinct(b.employees) && |b.employees| == |b.amounts| && Total(b.amounts) == b.expected
    ensures var treasury := s.addrs.value.treasury;
      && (forall i :: 0 <= i < |b.employees| && b.employees[i] != treasury ==>
            Of(t.balances, b.employees[i]) == Of(s.balances, b.employees[i]) + b.amounts[i])
      && (treasury !in b.employees ==> Of(t.balances, treasury) == Of(s.balances, treasury) - b.expected)
      && (a != treasury && a !in b.employees ==> Of(t.balances, a) == Of(s.balances, a))
    ensures Supply(t.balances) == Supply(s.balances)
  {
    PayAllFunded(s.balances, s.addrs.value.treasury, b.employees, b.amounts);
    ReceivedDistinct(b.employees, b.amounts);
  }

  /** When the treasury is itself an employee, its own amount comes back to it. */
  lemma TreasuryAfterBatch(s: Ledger, t: Ledger, e: Env, b: Batch, oracle: seq<bool>)
    requires Execute(s, e, b, oracle) == Some(t)
    ensures var treasury := s.addrs.value.treasury;
      Of(t.balances, treasury) == Of(s.balances, treasury) - b.expected + Received(treasury, b.employees, b.amounts)
  {
    PayAllFunded(s.balances, s.addrs.value.treasury, b.employees, b.amounts);
  }

  lemma StepConserves(s: Ledger, ev: Event)
    ensures Supply(Step(s, ev).balances) == Supply(s.balances)
  {
    var t := Step(s, ev);
    if Try(s, ev).Some? {
      match ev.call
      case OnRun(c) => RunCallConserves(s, t, ev.env, c);
      case OnRecord(c) => RecordCallFrame(s, t, ev.env, c);
      case OnSettings(c) => SettingsCallMoneyless(s, t, ev.env, c);
      case OnTreasury(c) => TreasuryCallConserves(s, t, ev.env, c);
    }
  }

  lemma RunCallConserves(s: Ledger, t: Ledger, e: Env, c: RunCall)
    requires TryRun(s, e, c) == Some(t)
    ensures Supply(t.balances) == Supply(s.balances)
  {
    if c.ExecuteCall? {
      BatchPays(s, t, e, c.b, c.oracle, 0);
    }
  }

  lemma SettingsCallMoneyless(s: Ledger, t: Ledger, e: Env, c: SettingsCall)
    requires TrySettings(s, e, c) == Some(t)
    ensures t.balances == s.balances && t.pending == s.pending && t.depositIds == s.depositIds
    ensures s.addrs.Some? ==> t.addrs.Some? && t.addrs.value.treasury == s.addrs.value.treasury
  {}

  lemma TreasuryCallConserves(s: Ledger, t: Ledger, e: Env, c: TreasuryCall)
    requires TryTreasury(s, e, c) == Some(t)
    ensures Supply(t.balances) == Supply(s.balances)
  {
    match c
    case DepositCall(from, amount, _) => TransferConserves(s.balances, from, s.addrs.value.treasury, amount);
    case RequestEmergencyCall(_, _, _) =>
    case ApproveEmergencyCall(_) =>
      var r := s.emergency.value;
      TransferConserves(s.balances, s.addrs.value.treasury, r.recipient, r.amount);
    case CancelEmergencyCall(_) =>
    case TokenCall(from, to, amount) => TransferConserves(s.balances, from, to, amount);
  }

  /** No sequence of calls creates or destroys a token. */
  lemma {:induction false} RunConserves(s: Ledger, events: seq<Event>)
    ensures Supply(Run(s, events).balances) == Supply(s.balances)
  {
    if events != [] {
      RunConserves(s, events[..|events| - 1]);
      StepConserves(Run(s, events[..|events| - 1]), events[|events| - 1]);
    }
  }

  // ------------------------------------------------------------------ deposits

  lemma StepKeepsDeposits(s: Ledger, ev: Event)
    ensures s.depositIds <= Step(s, ev).depositIds
  {
    var t := Step(s, ev);
    if Try(s, ev).Some? {
      match ev.call
      case OnRun(c) => RunCallDeposits(s, t, ev.env, c);
      case OnRecord(c) => RecordCallFrame(s, t, ev.env, c);
      case OnSettings(c) => SettingsCallMoneyless(s, t, ev.env, c);
      case OnTreasury(c) => TreasuryCallDeposits(s, t, ev.env, c);
    }
  }

  lemma RunCallDeposits(s: Ledger, t: Ledger, e: Env, c: RunCall)
    requires TryRun(s, e, c) == Some(t)
    ensures t.depositIds == s.depositIds
  {}

  lemma TreasuryCallDeposits(s: Ledger, t: Ledger, e: Env, c: TreasuryCall)
    requires TryTreasury(s, e, c) == Some(t)
    ensures s.depositIds <= t.depositIds
  {}

  lemma {:induction false} RunKeepsDeposits(s: Ledger, events: seq<Event>)
    ensures s.depositIds <= Run(s, events).depositIds
  {
    if events != [] {
      RunKeepsDeposits(s, events[..|events| - 1]);
      StepKeepsDeposits(Run(s, events[..|events| - 1]), events[|events| - 1]);
    }
  }

  /** A deposit credits the treasury once: its id is refused ever after, whoever presents it. */
  lemma DepositNeverReplayed(s: Ledger, t: Ledger, e: Env, from: Address, amount: int, id: Digest,
                             events: seq<Event>, e': Env, from': Address, amount': int)
    requires Deposit(s, e, from, amount, id) == Some(t)
    ensures from != s.addrs.value.treasury ==>
      Of(t.balances, s.addrs.value.treasury) == Of(s.balances, s.addrs.value.treasury) + amount
    ensures Deposit(Run(t, events), e', from', amount', id) == None
  {
    RunKeepsDeposits(t, events);
  }

  // ------------------------------------------------------------------ coverage

  /** The treasury holds at least what its pending runs reserve. */
  ghost predicate Covered(s: Ledger) {
    s.addrs.Some? ==> Of(s.balances, s.addrs.value.treasury) >= Reserved(s.pending)
  }

  /** A paid-out emergency withdrawal never eats into a reservation, whatever was covered before. */
  lemma ApprovalCovers(s: Ledger, t: Ledger, e: Env, admin: Address)
    requires Reachable(s) && ApproveEmergency(s, e, admin) == Some(t)
    ensures Covered(t) && t.pending == s.pending
  {
    ReservationExact(s);
  }

  /** Preparing checks no balance: the result is covered exactly when the treasury could also pay the new run. */
  lemma PrepareCoversIff(s: Ledger, t: Ledger, e: Env, b: Batch)
    requires Reachable(s) && Prepare(s, e, b) == Some(t)
    ensures Covered(t) <==> Of(s.balances, s.addrs.value.treasury) >= Reserved(s.pending) + b.expected
  {
    IdsPartitioned(s, s.counter + 1);
    ReservedAdd(s.pending, s.counter + 1, t.pending[s.counter + 1]);
  }

  /** A batch checks the balance but not the reservations: it keeps them covered exactly when it leaves enough. */
  lemma ExecuteCoversIff(s: Ledger, t: Ledger, e: Env, b: Batch, oracle: seq<bool>)
    requires Execute(s, e, b, oracle) == Some(t)
    ensures var treasury := s.addrs.value.treasury;
      Covered(t) <==>
        Of(s.balances, treasury) - b.expected + Received(treasury, b.employees, b.amounts) >= Reserved(s.pending)
  {
    TreasuryAfterBatch(s, t, e, b, oracle);
  }

  lemma TokenMoveCoversIff(s: Ledger, t: Ledger, e: Env, from: Address, to: Address, amount: int)
    requires MoveTokens(s, e, from, to, amount) == Some(t) && s.addrs.Some?
    requires from == s.addrs.value.treasury
    ensures Covered(t) <==> Of(s.balances, from) - (if to == from then 0 else amount) >= Reserved(s.pending)
  {}

  /** Calls that can never uncover a reservation. */
  predicate Quiet(treasury: Address, c: Call) {
    match c
    case OnRun(r) => r.FinalizeCall? || r.CancelCall?
    case OnTreasury(m) => m.TokenCall? ==> m.from != treasury
    case _ => true
  }

  lemma ResolvedCovered(s: Ledger, t: Ledger, e: Env, c: RunCall)
    requires Reachable(s) && TryRun(s, e, c) == Some(t) && (c.FinalizeCall? || c.CancelCall?) && Covered(s)
    ensures Covered(t)
  {
    ReservedRemove(s.pending, c.id);
    TotalsPositive(s, c.id);
  }

  lemma TotalsPositive(s: Ledger, id: nat)
    requires Reachable(s) && id in s.pending
    ensures s.pending[id].total > 0
  {
    ReachableKeeps(s);
  }

  lemma MoneyCallCovered(s: Ledger, t: Ledger, e: Env, c: TreasuryCall)
    requires Reachable(s) && TryTreasury(s, e, c) == Some(t) && Covered(s)
    requires s.addrs.Some? && (c.TokenCall? ==> c.from != s.addrs.value.treasury)
    ensures Covered(t)
  {
    if c.ApproveEmergencyCall? {
      ApprovalCovers(s, t, e, c.admin);
    }
  }

  lemma StepCovered(s: Ledger, ev: Event)
    requires Reachable(s) && Covered(s) && s.addrs.Some? && Quiet(s.addrs.value.treasury, ev.call)
    ensures var t := Step(s, ev); Covered(t) && t.addrs.Some? && t.addrs.value.treasury == s.addrs.value.treasury
  {
    var t := Step(s, ev);
    if Try(s, ev).Some? {
      match ev.call
      case OnRun(c) =>
        RunCallAddresses(s, t, ev.env, c);
        ResolvedCovered(s, t, ev.env, c);
      case OnRecord(c) => RecordCallFrame(s, t, ev.env, c);
      case OnSettings(c) => SettingsCallMoneyless(s, t, ev.env, c);
      case OnTreasury(c) =>
        TreasuryCallFrame(s, t, ev.env, c);
        MoneyCallCovered(s, t, ev.env, c);
    }
  }

  /** Finalizations, cancellations, deposits, emergencies and settings keep covered what was covered. */
  lemma {:induction false} RunCovered(s: Ledger, events: seq<Event>)
    requires Reachable(s) && Covered(s) && s.addrs.Some?
    requires forall i :: 0 <= i < |events| ==> Quiet(s.addrs.value.treasury, events[i].call)
    ensures var t := Run(s, events); Covered(t) && t.addrs.Some? && t.addrs.value.treasury == s.addrs.value.treasury
  {
    if events != [] {
      var before := events[..|events| - 1];
      RunCovered(s, before);
      ReachableRun(s, before);
      StepCovered(Run(s, before), events[|events| - 1]);
    }
  }
}
