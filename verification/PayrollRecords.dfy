/** What was prepared is what gets resolved: the terms of a run never change. */
module PayrollRecords {
  import opened Common
  import opened PayrollLedger
  import opened PayrollPreservation
  import opened PayrollRuns

  datatype Terms = Terms(id: nat, total: int, employees: nat, draft: Digest)

  /** The terms of a run, wherever its record is. */
  function TermsOf(s: Ledger, id: nat): Option<Terms> {
    if id in s.pending then
      Some(Terms(s.pending[id].id, s.pending[id].total, s.pending[id].employees, s.pending[id].draft))
    else if id in s.executed then
      Some(Terms(s.executed[id].id, s.executed[id].total, s.executed[id].employees, s.executed[id].draft))
    else if id in s.cancelled then
      Some(Terms(s.cancelled[id].id, s.cancelled[id].total, s.cancelled[id].employees, s.cancelled[id].draft))
    else None
  }

  /** The terms a batch asks for. */
  function TermsAsked(b: Batch, id: nat): Terms { Terms(id, b.expected, b.proofs, DraftOf(b)) }

  /** A record set in which every record carries its own key. */
  ghost predicate SelfNamed(pending: map<nat, PendingRun>) { forall id :: id in pending ==> pending[id].id == id }

  lemma SettleTerms(s: Ledger, e: Env, at: nat, id: nat)
    requires s.addrs.Some? && at in s.pending && at !in s.cancelled && SelfNamed(s.pending)
    ensures TermsOf(Settle(s, e, at), id) == TermsOf(s, id)
    ensures SelfNamed(Settle(s, e, at).pending)
  {}

  lemma WithdrawTerms(s: Ledger, e: Env, at: nat, reason: string, id: nat)
    requires s.addrs.Some? && at in s.pending && at !in s.executed && SelfNamed(s.pending)
    ensures TermsOf(Withdraw(s, e, at, reason), id) == TermsOf(s, id)
    ensures SelfNamed(Withdraw(s, e, at, reason).pending)
  {}

  /** An accepted batch is recorded under the next id with the terms it asks for. */
  lemma NewTerms(s: Ledger, t: Ledger, e: Env, c: RunCall, id: nat)
    requires TryRun(s, e, c) == Some(t) && (c.PrepareCall? || c.ExecuteCall?) && SelfNamed(s.pending)
    requires s.counter + 1 !in s.pending
    ensures TermsOf(t, id) == if id == s.counter + 1 then Some(TermsAsked(c.b, id)) else TermsOf(s, id)
    ensures SelfNamed(t.pending)
  {}

  lemma RunCallTerms(s: Ledger, t: Ledger, e: Env, c: RunCall, id: nat)
    requires Reachable(s) && TryRun(s, e, c) == Some(t) && SelfNamed(s.pending) && id <= s.counter
    ensures TermsOf(t, id) == TermsOf(s, id) && SelfNamed(t.pending)
  {
    match c
    case PrepareCall(_) =>
      IdsPartitioned(s, s.counter + 1);
      NewTerms(s, t, e, c, id);
    case FinalizeCall(_, at, _) =>
      IdsPartitioned(s, at);
      SettleTerms(s, e, at, id);
    case CancelCall(_, at, reason) =>
      IdsPartitioned(s, at);
      WithdrawTerms(s, e, at, reason, id);
    case ExecuteCall(_, _) =>
      IdsPartitioned(s, s.counter + 1);
      NewTerms(s, t, e, c, id);
  }

  /** Reconciliation, state moves and metadata leave the terms alone. */
  lemma RecordCallTerms(s: Ledger, t: Ledger, e: Env, c: RecordCall, id: nat)
    requires TryRecord(s, e, c) == Some(t)
    ensures TermsOf(t, id) == TermsOf(s, id) && t.pending == s.pending
  {}

  lemma SettingsCallTerms(s: Ledger, t: Ledger, e: Env, c: SettingsCall, id: nat)
    requires Reachable(s) && TrySettings(s, e, c) == Some(t)
    ensures TermsOf(t, id) == TermsOf(s, id) && t.pending == s.pending
  {
    UnstartedIsEmpty(s);
    SettingsCallFrame(s, t, e, c);
  }

  lemma TreasuryCallTerms(s: Ledger, t: Ledger, e: Env, c: TreasuryCall, id: nat)
    requires TryTreasury(s, e, c) == Some(t)
    ensures TermsOf(t, id) == TermsOf(s, id) && t.pending == s.pending
  {
    TreasuryCallFrame(s, t, e, c);
  }

  lemma StepTerms(s: Ledger, ev: Event, id: nat)
    requires Reachable(s) && SelfNamed(s.pending) && id <= s.counter
    ensures TermsOf(Step(s, ev), id) == TermsOf(s, id) && SelfNamed(Step(s, ev).pending)
  {
    if Try(s, ev).Some? {
      match ev.call
      case OnRun(c) => RunCallTerms(s, Step(s, ev), ev.env, c, id);
      case OnRecord(c) => RecordCallTerms(s, Step(s, ev), ev.env, c, id);
      case OnSettings(c) => SettingsCallTerms(s, Step(s, ev), ev.env, c, id);
      case OnTreasury(c) => TreasuryCallTerms(s, Step(s, ev), ev.env, c, id);
    }
  }

  lemma {:induction false} RunSelfNamed(balances: map<Address, nat>, events: seq<Event>)
    ensures SelfNamed(Run(Genesis(balances), events).pending)
  {
    if events != [] {
      var s := Run(Genesis(balances), events[..|events| - 1]);
      RunSelfNamed(balances, events[..|events| - 1]);
      assert Reachable(s);
      StepTerms(s, events[|events| - 1], 0);
    }
  }

  lemma ReachableSelfNamed(s: Ledger)
    requires Reachable(s)
    ensures SelfNamed(s.pending)
  {
    var balances, events :| s == Run(Genesis(balances), events);
    RunSelfNamed(balances, events);
  }

  /** Through pending, finalized or cancelled, the terms of a run stay what they were. */
  lemma {:induction false} TermsPermanent(s: Ledger, events: seq<Event>, id: nat)
    requires Reachable(s) && id <= s.counter
    ensures TermsOf(Run(s, events), id) == TermsOf(s, id)
  {
    if events != [] {
      var before := events[..|events| - 1];
      TermsPermanent(s, before, id);
      ReachableRun(s, before);
      ReachableSelfNamed(Run(s, before));
      RunGrows(s, before);
      StepTerms(Run(s, before), events[|events| - 1], id);
    }
  }

  /** A prepared or executed batch is recorded, for ever, with its own total, head count and draft. */
  lemma BatchTermsPermanent(s: Ledger, t: Ledger, e: Env, c: RunCall, events: seq<Event>)
    requires Reachable(s) && (c.PrepareCall? || c.ExecuteCall?) && Try(s, Event(e, OnRun(c))) == Some(t)
    ensures TermsOf(Run(t, events), s.counter + 1) == Some(TermsAsked(c.b, s.counter + 1))
  {
    ReachableTry(s, Event(e, OnRun(c)));
    ReachableSelfNamed(s);
    IdsPartitioned(s, s.counter + 1);
    NewTerms(s, t, e, c, s.counter + 1);
    IdsPartitioned(t, s.counter + 1);
    TermsPermanent(t, events, s.counter + 1);
  }
}
