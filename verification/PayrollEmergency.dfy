/** Emergency withdrawals from request to payment. */
module PayrollEmergency {
  import opened Common
  import opened Token
  import opened PayrollLedger
  import opened PayrollInvariant
  import opened PayrollPreservation
  import opened PayrollRuns
  import opened PayrollAcceptance

  /** What the treasury holds beyond its reservations. */
  ghost function Spare(s: Ledger): int
    requires s.addrs.Some?
  {
    Of(s.balances, s.addrs.value.treasury) - Reserved(s.pending)
  }

  lemma AvailableIs(s: Ledger)
    requires Reachable(s) && s.addrs.Some?
    ensures Reserved(s.pending) >= 0
    ensures Available(s) == if Spare(s) <= 0x7FFF_FFFF_FFFF_FFFF_FFFF_FFFF_FFFF_FFFF then Spare(s) else 0
  {
    ReservationExact(s);
  }

  /** A request is the unpaused owner's, one at a time, within what is spare. */
  lemma RequestIff(s: Ledger, e: Env, owner: Address, amount: int, recipient: Address)
    requires Reachable(s)
    ensures RequestEmergency(s, e, owner, amount, recipient).Some? <==>
      && !e.paused && s.addrs.Some? && s.addrs.value.owner == owner && owner in e.auth && s.emergency == None
      && 1 <= amount <= Spare(s) <= 0x7FFF_FFFF_FFFF_FFFF_FFFF_FFFF_FFFF_FFFF
  {
    if s.addrs.Some? {
      AvailableIs(s);
      OwnerStored(s);
    } else {
      Unowned(s);
    }
  }

  lemma Unowned(s: Ledger)
    requires Reachable(s) && s.addrs.None?
    ensures s.treasuryOwner == None
  {
    ReachableKeeps(s);
  }

  lemma RequestLeaves(s: Ledger, t: Ledger, e: Env, owner: Address, amount: int, recipient: Address)
    requires RequestEmergency(s, e, owner, amount, recipient) == Some(t)
    ensures t == s.(emergency := Some(EmergencyRequest(amount, recipient, e.now)))
  {}

  // ------------------------------------------------------------------ a stored request

  predicate Positive(s: Ledger) { s.emergency.Some? ==> s.emergency.value.amount > 0 }

  predicate EndsRequest(c: Call) { c.OnTreasury? && (c.treasury.ApproveEmergencyCall? || c.treasury.CancelEmergencyCall?) }

  /** Only approval and cancellation end a request, and only a request starts one. */
  ghost predicate Carried(s: Ledger, t: Ledger, c: Call) {
    && (Positive(s) ==> Positive(t))
    && (s.emergency.Some? && !EndsRequest(c) ==> t.emergency == s.emergency)
  }

  lemma RecordCallEmergency(s: Ledger, t: Ledger, e: Env, c: RecordCall)
    requires TryRecord(s, e, c) == Some(t)
    ensures t.emergency == s.emergency
  {
    RecordCallFrame(s, t, e, c);
  }

  lemma StepEmergency(s: Ledger, ev: Event)
    ensures Carried(s, Step(s, ev), ev.call)
  {
    var t := Step(s, ev);
    if Try(s, ev).Some? {
      match ev.call
      case OnRun(c) => RunCallEmergency(s, t, ev.env, c);
      case OnRecord(c) => RecordCallEmergency(s, t, ev.env, c);
      case OnSettings(c) => SettingsCallEmergency(s, t, ev.env, c);
      case OnTreasury(c) => TreasuryCallEmergency(s, t, ev.env, c);
    }
  }

  lemma RunCallEmergency(s: Ledger, t: Ledger, e: Env, c: RunCall)
    requires TryRun(s, e, c) == Some(t)
    ensures t.emergency == s.emergency
  {}

  lemma SettingsCallEmergency(s: Ledger, t: Ledger, e: Env, c: SettingsCall)
    requires TrySettings(s, e, c) == Some(t)
    ensures t.emergency == s.emergency
  {}

  lemma TreasuryCallEmergency(s: Ledger, t: Ledger, e: Env, c: TreasuryCall)
    requires TryTreasury(s, e, c) == Some(t)
    ensures Carried(s, t, OnTreasury(c))
  {}

  lemma {:induction false} RunPositive(balances: Balances, events: seq<Event>)
    ensures Positive(Run(Genesis(balances), events))
  {
    if events != [] {
      RunPositive(balances, events[..|events| - 1]);
      StepEmergency(Run(Genesis(balances), events[..|events| - 1]), events[|events| - 1]);
    }
  }

  lemma ReachablePositive(s: Ledger)
    requires Reachable(s)
    ensures Positive(s)
  {
    var balances, events :| s == Run(Genesis(balances), events);
    RunPositive(balances, events);
  }

  lemma {:induction false} RequestStays(s: Ledger, events: seq<Event>)
    requires s.emergency.Some? && forall i :: 0 <= i < |events| ==> !EndsRequest(events[i].call)
    ensures Run(s, events).emergency == s.emergency
  {
    if events != [] {
      RequestStays(s, events[..|events| - 1]);
      StepEmergency(Run(s, events[..|events| - 1]), events[|events| - 1]);
    }
  }

  // ------------------------------------------------------------------ approval

  /** An approval is the unpaused admin's, with the treasury's authorisation, of a request still within what is spare. */
  lemma ApproveIff(s: Ledger, e: Env, admin: Address)
    requires Reachable(s)
    ensures ApproveEmergency(s, e, admin).Some? <==>
      && !e.paused && Signed(s, e, admin) && s.emergency.Some? && s.addrs.value.treasury in e.auth
      && s.emergency.value.amount <= Spare(s) <= 0x7FFF_FFFF_FFFF_FFFF_FFFF_FFFF_FFFF_FFFF
  {
    ReachablePositive(s);
    if s.addrs.Some? {
      AvailableIs(s);
    }
  }

  lemma ApproveMoves(s: Ledger, t: Ledger, e: Env, admin: Address, a: Address)
    requires ApproveEmergency(s, e, admin) == Some(t)
    ensures s.addrs.Some? && s.emergency.Some? && t == s.(emergency := None, balances := t.balances)
    ensures var r := s.emergency.value;
      Of(t.balances, a) ==
        Of(s.balances, a) + (if a == r.recipient then r.amount else 0) - (if a == s.addrs.value.treasury then r.amount else 0)
  {}

  /**
   Whatever happens between request and approval, short of ending the request, the approval pays
   exactly the amount asked for to exactly the recipient named, out of the treasury.
   */
  lemma WithdrawalPaysRecipient(s: Ledger, t: Ledger, e: Env, owner: Address, amount: int, recipient: Address,
                                events: seq<Event>, v: Ledger, e': Env, admin: Address, a: Address)
    requires RequestEmergency(s, e, owner, amount, recipient) == Some(t)
    requires forall i :: 0 <= i < |events| ==> !EndsRequest(events[i].call)
    requires ApproveEmergency(Run(t, events), e', admin) == Some(v)
    ensures s.addrs.Some? && v.emergency == None
    ensures Of(v.balances, a) == Of(Run(t, events).balances, a)
      + (if a == recipient then amount else 0) - (if a == s.addrs.value.treasury then amount else 0)
  {
    RequestLeaves(s, t, e, owner, amount, recipient);
    RequestStays(t, events);
    RequestedInitialized(s, e, owner, amount, recipient);
    StaysInitialized(t, events);
    ApproveMoves(Run(t, events), v, e', admin, a);
  }

  lemma RequestedInitialized(s: Ledger, e: Env, owner: Address, amount: int, recipient: Address)
    requires RequestEmergency(s, e, owner, amount, recipient).Some?
    ensures s.addrs.Some?
  {}

  /** A request is cancelled by the unpaused admin or treasury owner. */
  lemma CancelRequestIff(s: Ledger, e: Env, caller: Address)
    requires Reachable(s)
    ensures CancelEmergency(s, e, caller).Some? <==>
      && !e.paused && s.addrs.Some? && s.emergency.Some? && caller in e.auth
      && (caller == s.addrs.value.admin || caller == s.addrs.value.owner)
    ensures CancelEmergency(s, e, caller).Some? ==> CancelEmergency(s, e, caller).value == s.(emergency := None)
  {
    if s.addrs.Some? {
      OwnerStored(s);
    }
  }
}
