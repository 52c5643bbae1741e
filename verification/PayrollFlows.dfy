/** Every account's balance, accounted for call by call; and what a finalized run pays. */
module PayrollFlows {
  import opened Common
  import opened Token
  import opened PayrollLedger
  import opened PayrollPreservation
  import opened PayrollRuns
  import opened PayrollRecords
  import opened PayrollTreasury

  /** What a transfer gives an account. */
  function Moved(from: Address, to: Address, amount: int, a: Address): int {
    (if a == to then amount else 0) - (if a == from then amount else 0)
  }

  lemma TransferMoves(b: Balances, from: Address, to: Address, amount: int, a: Address)
    requires Transfer(b, from, to, amount).Some?
    ensures Of(Transfer(b, from, to, amount).value, a) == Of(b, a) + Moved(from, to, amount, a)
  {}

  /** What executing a batch gives an account; no other run call moves a token. */
  function RunCallGain(s: Ledger, c: RunCall, a: Address): int {
    if c.ExecuteCall? && s.addrs.Some? && |c.b.employees| == |c.b.amounts| then
      Received(a, c.b.employees, c.b.amounts) - if a == s.addrs.value.treasury then Total(c.b.amounts) else 0
    else 0
  }

  /** What deposits, approved withdrawals and outside moves give an account. */
  function TreasuryCallGain(s: Ledger, c: TreasuryCall, a: Address): int {
    match c
    case DepositCall(from, amount, _) => if s.addrs.Some? then Moved(from, s.addrs.value.treasury, amount, a) else 0
    case ApproveEmergencyCall(_) =>
      if s.addrs.Some? && s.emergency.Some? then
        Moved(s.addrs.value.treasury, s.emergency.value.recipient, s.emergency.value.amount, a)
      else 0
    case TokenCall(from, to, amount) => Moved(from, to, amount, a)
    case _ => 0
  }

  function Gain(s: Ledger, ev: Event, a: Address): int {
    if Try(s, ev).None? then 0
    else
      match ev.call
      case OnRun(c) => RunCallGain(s, c, a)
      case OnTreasury(c) => TreasuryCallGain(s, c, a)
      case _ => 0
  }

  function Gains(s: Ledger, events: seq<Event>, a: Address): int {
    if events == [] then 0
    else
      var before := events[..|events| - 1];
      Gains(s, before, a) + Gain(Run(s, before), events[|events| - 1], a)
  }

  lemma RunCallGains(s: Ledger, t: Ledger, e: Env, c: RunCall, a: Address)
    requires TryRun(s, e, c) == Some(t)
    ensures Of(t.balances, a) == Of(s.balances, a) + RunCallGain(s, c, a)
  {
    if c.ExecuteCall? {
      PayAllEffect(s.balances, s.addrs.value.treasury, c.b.employees, c.b.amounts);
    }
  }

  lemma TreasuryCallGains(s: Ledger, t: Ledger, e: Env, c: TreasuryCall, a: Address)
    requires TryTreasury(s, e, c) == Some(t)
    ensures Of(t.balances, a) == Of(s.balances, a) + TreasuryCallGain(s, c, a)
  {
    match c
    case DepositCall(from, amount, _) => TransferMoves(s.balances, from, s.addrs.value.treasury, amount, a);
    case RequestEmergencyCall(_, _, _) =>
    case ApproveEmergencyCall(_) =>
      var r := s.emergency.value;
      TransferMoves(s.balances, s.addrs.value.treasury, r.recipient, r.amount, a);
    case CancelEmergencyCall(_) =>
    case TokenCall(from, to, amount) => TransferMoves(s.balances, from, to, amount, a);
  }

  lemma StepGains(s: Ledger, ev: Event, a: Address)
    ensures Of(Step(s, ev).balances, a) == Of(s.balances, a) + Gain(s, ev, a)
  {
    var t := Step(s, ev);
    if Try(s, ev).Some? {
      match ev.call
      case OnRun(c) => RunCallGains(s, t, ev.env, c, a);
      case OnRecord(c) => RecordCallFrame(s, t, ev.env, c);
      case OnSettings(c) => SettingsCallMoneyless(s, t, ev.env, c);
      case OnTreasury(c) => TreasuryCallGains(s, t, ev.env, c, a);
    }
  }

  /**
   After any run a balance is what it was at the start plus what executed batches, deposits, approved
   withdrawals and outside moves gave the account: preparing, finalizing and cancelling pay nothing.
   */
  lemma {:induction false} BalanceAccounted(s: Ledger, events: seq<Event>, a: Address)
    ensures Of(Run(s, events).balances, a) == Of(s.balances, a) + Gains(s, events, a)
  {
    if events != [] {
      BalanceAccounted(s, events[..|events| - 1], a);
      StepGains(Run(s, events[..|events| - 1]), events[|events| - 1], a);
    }
  }

  // ------------------------------------------------------------------ what is paid under one run id

  /** The run calls that concern an id: those that hand it out, finalize it or cancel it. */
  predicate Concerns(s: Ledger, ev: Event, id: nat) {
    && ev.call.OnRun?
    && match ev.call.run
       case PrepareCall(_) => s.counter + 1 == id
       case ExecuteCall(_, _) => s.counter + 1 == id
       case FinalizeCall(_, at, _) => at == id
       case CancelCall(_, at, _) => at == id
  }

  /** What one call pays an account under a run id: how the account's balance changes. */
  function PaidBy(s: Ledger, ev: Event, id: nat, a: Address): int {
    if Concerns(s, ev, id) then Of(Step(s, ev).balances, a) - Of(s.balances, a) else 0
  }

  function PaidUnder(s: Ledger, events: seq<Event>, id: nat, a: Address): int {
    if events == [] then 0
    else
      var before := events[..|events| - 1];
      PaidUnder(s, before, id, a) + PaidBy(Run(s, before), events[|events| - 1], id, a)
  }

  /** Whatever concerns an id already handed out changes no balance. */
  lemma OldIdPaysNothing(s: Ledger, ev: Event, id: nat, a: Address)
    requires id <= s.counter
    ensures PaidBy(s, ev, id, a) == 0
  {
    StepGains(s, ev, a);
  }

  lemma {:induction false} NothingMorePaid(s: Ledger, events: seq<Event>, id: nat, a: Address)
    requires Reachable(s) && id <= s.counter
    ensures PaidUnder(s, events, id, a) == 0
  {
    if events != [] {
      var before := events[..|events| - 1];
      NothingMorePaid(s, before, id, a);
      RunGrows(s, before);
      OldIdPaysNothing(Run(s, before), events[|events| - 1], id, a);
    }
  }

  /**
   Neither preparing a run nor anything done to it later, its finalization included, changes anyone's
   balance, while its total stays on record.
   */
  lemma PreparedPaysNobody(s: Ledger, t: Ledger, e: Env, b: Batch, events: seq<Event>, a: Address)
    requires Reachable(s) && Try(s, Event(e, OnRun(PrepareCall(b)))) == Some(t)
    ensures PaidBy(s, Event(e, OnRun(PrepareCall(b))), s.counter + 1, a) == 0
    ensures PaidUnder(t, events, s.counter + 1, a) == 0
    ensures TermsOf(Run(t, events), s.counter + 1) == Some(TermsAsked(b, s.counter + 1))
  {
    var ev := Event(e, OnRun(PrepareCall(b)));
    StepGains(s, ev, a);
    ReachableTry(s, ev);
    BatchTermsPermanent(s, t, e, PrepareCall(b), events);
    NothingMorePaid(t, events, s.counter + 1, a);
  }

  lemma ExecutedFacts(s: Ledger, t: Ledger, e: Env, b: Batch, oracle: seq<bool>)
    requires Execute(s, e, b, oracle) == Some(t)
    ensures s.addrs.Some? && Distinct(b.employees) && |b.employees| == |b.amounts| && t.counter == s.counter + 1
  {}

  /** Executing a batch changes balances by exactly its amounts; nothing done under its id later changes any. */
  lemma ExecutedPaysOnce(s: Ledger, t: Ledger, e: Env, b: Batch, oracle: seq<bool>, events: seq<Event>, a: Address)
    requires Reachable(s) && Try(s, Event(e, OnRun(ExecuteCall(b, oracle)))) == Some(t)
    ensures s.addrs.Some? && |b.employees| == |b.amounts|
    ensures var paid := PaidBy(s, Event(e, OnRun(ExecuteCall(b, oracle))), s.counter + 1, a);
      && (a != s.addrs.value.treasury ==>
           (forall i :: 0 <= i < |b.employees| && b.employees[i] == a ==> paid == b.amounts[i])
           && (a !in b.employees ==> paid == 0))
      && (a == s.addrs.value.treasury && a !in b.employees ==> paid == -Total(b.amounts))
    ensures PaidUnder(t, events, s.counter + 1, a) == 0
  {
    var ev := Event(e, OnRun(ExecuteCall(b, oracle)));
    ReachableTry(s, ev);
    ExecutedFacts(s, t, e, b, oracle);
    ReceivedDistinct(b.employees, b.amounts);
    StepGains(s, ev, a);
    NothingMorePaid(t, events, s.counter + 1, a);
  }
}
