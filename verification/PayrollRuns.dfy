/** What holds of the payroll contract over whole runs. */
module PayrollRuns {
  import opened Common
  import opened Token
  import opened PayrollLedger
  import opened PayrollInvariant
  import opened PayrollPreservation

  // ------------------------------------------------------------------ reservations

  /**
   The reservation is the sum of the pending totals, the counter their number; nothing is reserved
   in any other asset.
   */
  lemma ReservationExact(s: Ledger)
    requires Reachable(s) && s.addrs.Some?
    ensures 0 <= Locked(s, s.addrs.value.token) == Reserved(s.pending) <= I128_MAX
    ensures s.pendingCount == |s.pending|
    ensures forall a :: a != s.addrs.value.token ==> Locked(s, a) == 0
  {
    ReachableKeeps(s);
    SumNonNegative(Totals(s.pending));
  }

  /** Releasing is exact: no saturation, no overflow, and the already-executed guard cannot fire. */
  lemma ResolveAcceptedExactly(s: Ledger, e: Env, admin: Address, id: nat)
    requires Reachable(s)
    ensures ResolveAccepted(s, e, admin, id) <==> id != U64_MAX && IsAdmin(s, e, admin) && id in s.pending
    ensures id in s.pending ==>
      && s.addrs.Some? && s.pendingCount > 0 && s.pending[id].total <= Locked(s, s.addrs.value.token)
      && id !in s.executed && id !in s.cancelled
  {
    ReachableKeeps(s);
    if id in s.pending {
      ResolveKeepsConfigured(s, id, Cancelled);
    }
  }

  lemma UnstartedIsEmpty(s: Ledger)
    requires Reachable(s)
    ensures s.addrs.None? ==> s.counter == 0
  {
    ReachableKeeps(s);
  }

  lemma RecordsPartition(s: Ledger)
    requires Reachable(s)
    ensures Partition(s.counter, s.pending.Keys, s.executed.Keys, s.cancelled.Keys)
  {
    ReachableKeeps(s);
  }

  /** Every id is in exactly one of the three sets, up to the counter and no further. */
  lemma IdsPartitioned(s: Ledger, id: nat)
    requires Reachable(s)
    ensures 1 <= id <= s.counter <==> id in s.pending || id in s.executed || id in s.cancelled
    ensures !(id in s.pending && id in s.executed) && !(id in s.pending && id in s.cancelled)
    ensures !(id in s.executed && id in s.cancelled)
  {
    RecordsPartition(s);
  }

  // ------------------------------------------------------------------ what a step may change

  /** Ids are only handed out; a resolved run stays resolved; a pending run's record is never rewritten. */
  ghost predicate Grows(s: Ledger, t: Ledger) {
    && s.counter <= t.counter && s.executed.Keys <= t.executed.Keys && s.cancelled.Keys <= t.cancelled.Keys
    && forall id :: id <= s.counter && id in t.pending ==> id in s.pending && t.pending[id] == s.pending[id]
  }

  ghost predicate OnlyRecords(s: Ledger, t: Ledger) {
    && t == s.(executed := t.executed, runState := t.runState, committed := t.committed)
    && t.executed.Keys == s.executed.Keys
  }

  ghost predicate OnlySettings(s: Ledger, t: Ledger) {
    t == s.(addrs := t.addrs, treasuryOwner := t.treasuryOwner, companyState := t.companyState,
            allowed := t.allowed, supported := t.supported)
  }

  lemma RecordCallFrame(s: Ledger, t: Ledger, e: Env, c: RecordCall)
    requires TryRecord(s, e, c) == Some(t)
    ensures OnlyRecords(s, t)
  {}

  lemma SettingsCallFrame(s: Ledger, t: Ledger, e: Env, c: SettingsCall)
    requires TrySettings(s, e, c) == Some(t) && (s.addrs.None? ==> s.counter == 0)
    ensures OnlySettings(s, t)
  {}

  lemma RunCallGrows(s: Ledger, t: Ledger, e: Env, c: RunCall)
    requires TryRun(s, e, c) == Some(t)
    ensures Grows(s, t)
  {}

  lemma StepGrows(s: Ledger, ev: Event)
    requires s.addrs.None? ==> s.counter == 0
    ensures Grows(s, Step(s, ev))
  {
    var t := Step(s, ev);
    if Try(s, ev).Some? {
      match ev.call
      case OnRun(c) => RunCallGrows(s, t, ev.env, c);
      case OnRecord(c) => RecordCallFrame(s, t, ev.env, c);
      case OnSettings(c) => SettingsCallFrame(s, t, ev.env, c);
      case OnTreasury(c) => TreasuryCallFrame(s, t, ev.env, c);
    }
  }

  lemma {:induction false} RunGrows(s: Ledger, events: seq<Event>)
    requires Reachable(s)
    ensures Grows(s, Run(s, events))
  {
    if events != [] {
      RunGrows(s, events[..|events| - 1]);
      ReachableRun(s, events[..|events| - 1]);
      UnstartedIsEmpty(Run(s, events[..|events| - 1]));
      StepGrows(Run(s, events[..|events| - 1]), events[|events| - 1]);
    }
  }

  /** A resolved run stays in its set and can never be finalized or cancelled again. */
  lemma ResolvedForever(s: Ledger, events: seq<Event>, id: nat, e: Env, admin: Address, expired: bool, reason: string)
    requires Reachable(s) && (id in s.executed || id in s.cancelled)
    ensures var t := Run(s, events);
      && (id in s.executed ==> id in t.executed) && (id in s.cancelled ==> id in t.cancelled) && id !in t.pending
      && Finalize(t, e, admin, id, expired) == None && Cancel(t, e, admin, id, reason) == None
  {
    RunGrows(s, events);
    ReachableRun(s, events);
    IdsPartitioned(Run(s, events), id);
  }

  // ------------------------------------------------------------------ the configuration lock

  /** Everything a prepared run was validated against, apart from the admin. */
  ghost predicate SameSettings(s: Ledger, t: Ledger) {
    && s.addrs.Some? && t.addrs.Some?
    && t.addrs.value == s.addrs.value.(admin := t.addrs.value.admin)
    && t.treasuryOwner == s.treasuryOwner && t.companyState == s.companyState
    && t.allowed == s.allowed && t.supported == s.supported
  }

  lemma RunCallSettings(s: Ledger, t: Ledger, e: Env, c: RunCall)
    requires TryRun(s, e, c) == Some(t)
    ensures SameSettings(s, t)
  {}

  lemma SettingsLocked(s: Ledger, t: Ledger, e: Env, c: SettingsCall)
    requires TrySettings(s, e, c) == Some(t) && s.addrs.Some? && s.pendingCount > 0
    ensures SameSettings(s, t) && c.AcceptHandoverCall?
  {}

  lemma StepLocked(s: Ledger, ev: Event)
    requires s.addrs.Some? && s.pendingCount > 0
    ensures SameSettings(s, Step(s, ev))
  {
    var t := Step(s, ev);
    if Try(s, ev).Some? {
      match ev.call
      case OnRun(c) => RunCallSettings(s, t, ev.env, c);
      case OnRecord(c) => RecordCallFrame(s, t, ev.env, c);
      case OnSettings(c) => SettingsLocked(s, t, ev.env, c);
      case OnTreasury(c) => TreasuryCallFrame(s, t, ev.env, c);
    }
  }

  lemma PendingMeans(s: Ledger, id: nat)
    requires Reachable(s) && id in s.pending
    ensures s.addrs.Some? && s.pendingCount > 0 && id <= s.counter
    ensures CompanyActive(s) && AssetAllowed(s, s.addrs.value.token)
  {
    ReachableKeeps(s);
    assert s.pending != map[];
  }

  lemma IdBelowCounter(s: Ledger, events: seq<Event>, id: nat)
    requires Reachable(s) && id in s.pending
    ensures id <= Run(s, events).counter
  {
    PendingMeans(s, id);
    RunGrows(s, events);
  }

  lemma WasPending(s: Ledger, events: seq<Event>, id: nat)
    requires Reachable(s) && id <= s.counter && id in Run(s, events).pending
    ensures id in s.pending
  {
    RunGrows(s, events);
  }

  /** A run pending now and pending later was pending all along. */
  lemma PendingThroughout(s: Ledger, events: seq<Event>, id: nat, n: nat)
    requires Reachable(s) && id in s.pending && id in Run(s, events).pending && n <= |events|
    ensures id in Run(s, events[..n]).pending
  {
    var first, second := events[..n], events[n..];
    assert first + second == events;
    RunConcat(s, first, second);
    ReachableRun(s, first);
    IdBelowCounter(s, first, id);
    WasPending(Run(s, first), second, id);
  }

  /** So nothing changed under it. */
  lemma {:induction false} RunLocked(s: Ledger, events: seq<Event>, id: nat)
    requires Reachable(s) && id in s.pending && id in Run(s, events).pending
    ensures SameSettings(s, Run(s, events)) && Run(s, events).pending[id] == s.pending[id]
    ensures forall n :: 0 <= n <= |events| ==> id in Run(s, events[..n]).pending
  {
    forall n | 0 <= n <= |events|
      ensures id in Run(s, events[..n]).pending
    {
      PendingThroughout(s, events, id, n);
    }
    PendingMeans(s, id);
    if events != [] {
      var k := |events| - 1;
      var mid := Run(s, events[..k]);
      ReachableRun(s, events[..k]);
      RunLocked(s, events[..k], id);
      PendingMeans(mid, id);
      UnstartedIsEmpty(mid);
      StepGrows(mid, events[k]);
      StepLocked(mid, events[k]);
    }
  }

  /**
   From preparation until resolution, the payout token, treasury address, treasury owner, allowlist,
   asset list and company state keep their values; the company is active and the token allowed.
   */
  lemma FrozenSincePreparation(s: Ledger, t: Ledger, e: Env, b: Batch, events: seq<Event>)
    requires Reachable(s) && Try(s, Event(e, OnRun(PrepareCall(b)))) == Some(t)
    requires s.counter + 1 in Run(t, events).pending
    ensures SameSettings(s, Run(t, events))
    ensures CompanyActive(Run(t, events)) && AssetAllowed(Run(t, events), s.addrs.value.token)
  {
    ReachableTry(s, Event(e, OnRun(PrepareCall(b))));
    PreparedFacts(s, t, e, b);
    RunLocked(t, events, s.counter + 1);
    ReachableRun(t, events);
    PendingMeans(Run(t, events), s.counter + 1);
  }

  lemma PreparedFacts(s: Ledger, t: Ledger, e: Env, b: Batch)
    requires Prepare(s, e, b) == Some(t)
    ensures SameSettings(s, t) && s.counter + 1 in t.pending && t.addrs == s.addrs
  {}

  // ------------------------------------------------------------------ the admin under a pending run

  /** An admin handover whose acceptance nothing refuses. */
  predicate HandsOver(ev: Event) {
    && ev.call.OnSettings? && ev.call.settings.AcceptHandoverCall?
    && !ev.env.paused && ev.call.settings.proposal == Some(ev.call.settings.caller)
    && ev.call.settings.caller in ev.env.auth
  }

  function AdminAfter(ev: Event, admin: Address): Address {
    if HandsOver(ev) then ev.call.settings.caller else admin
  }

  lemma RunCallAddresses(s: Ledger, t: Ledger, e: Env, c: RunCall)
    requires TryRun(s, e, c) == Some(t)
    ensures t.addrs == s.addrs
  {}

  /** While a run is pending the admin changes by such a handover, to its caller, and by nothing else. */
  lemma AdminChangesIff(s: Ledger, ev: Event)
    requires s.addrs.Some? && s.pendingCount > 0
    ensures Step(s, ev).addrs == Some(s.addrs.value.(admin := AdminAfter(ev, s.addrs.value.admin)))
  {
    var t := Step(s, ev);
    match ev.call
    case OnRun(c) =>
      if Try(s, ev).Some? {
        RunCallAddresses(s, t, ev.env, c);
      }
    case OnRecord(c) =>
      if Try(s, ev).Some? {
        RecordCallFrame(s, t, ev.env, c);
      }
    case OnSettings(c) => SettingsCallAdmin(s, ev.env, c);
    case OnTreasury(c) =>
      if Try(s, ev).Some? {
        TreasuryCallFrame(s, t, ev.env, c);
      }
  }

  lemma SettingsCallAdmin(s: Ledger, e: Env, c: SettingsCall)
    requires s.addrs.Some? && s.pendingCount > 0
    ensures After(s, TrySettings(s, e, c)).addrs ==
      Some(s.addrs.value.(admin := AdminAfter(Event(e, OnSettings(c)), s.addrs.value.admin)))
  {}

  /** The caller of the last handover of a run of calls, or else the admin at its start. */
  function LastAdmin(events: seq<Event>, admin: Address): Address {
    if events == [] then admin else AdminAfter(events[|events| - 1], LastAdmin(events[..|events| - 1], admin))
  }

  lemma {:induction false} AdminUnderRun(s: Ledger, events: seq<Event>, id: nat)
    requires Reachable(s) && id in s.pending && id in Run(s, events).pending && s.addrs.Some?
    ensures Run(s, events).addrs == Some(s.addrs.value.(admin := LastAdmin(events, s.addrs.value.admin)))
  {
    if events != [] {
      var k := |events| - 1;
      PendingThroughout(s, events, id, k);
      AdminUnderRun(s, events[..k], id);
      ReachableRun(s, events[..k]);
      PendingMeans(Run(s, events[..k]), id);
      AdminChangesIff(Run(s, events[..k]), events[k]);
    }
  }

  lemma {:induction false} NoHandover(events: seq<Event>, admin: Address)
    requires forall i :: 0 <= i < |events| && HandsOver(events[i]) ==> events[i].call.settings.caller == admin
    ensures LastAdmin(events, admin) == admin
  {
    if events != [] {
      NoHandover(events[..|events| - 1], admin);
    }
  }

  /**
   From preparation until resolution the admin is the caller of the last handover; with no handover to
   another address it is frozen too.
   */
  lemma AdminSincePreparation(s: Ledger, t: Ledger, e: Env, b: Batch, events: seq<Event>)
    requires Reachable(s) && Try(s, Event(e, OnRun(PrepareCall(b)))) == Some(t) && s.addrs.Some?
    requires s.counter + 1 in Run(t, events).pending
    ensures Run(t, events).addrs == Some(s.addrs.value.(admin := LastAdmin(events, s.addrs.value.admin)))
    ensures (forall i :: 0 <= i < |events| && HandsOver(events[i]) ==>
               events[i].call.settings.caller == s.addrs.value.admin) ==> Run(t, events).addrs == s.addrs
  {
    ReachableTry(s, Event(e, OnRun(PrepareCall(b))));
    PreparedFacts(s, t, e, b);
    AdminUnderRun(t, events, s.counter + 1);
    if forall i :: 0 <= i < |events| && HandsOver(events[i]) ==> events[i].call.settings.caller == s.addrs.value.admin {
      NoHandover(events, s.addrs.value.admin);
    }
  }

  // ------------------------------------------------------------------ the asset list

  /** The listed assets are the allowed ones, each once, stored list or not. */
  lemma SupportedAssetsExact(s: Ledger, asset: Address)
    requires Reachable(s)
    ensures Distinct(SupportedAssets(s)) && (asset in SupportedAssets(s) <==> AssetAllowed(s, asset))
  {
    ReachableKeeps(s);
  }
}
