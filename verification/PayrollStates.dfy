/** How the state of one payroll run may move, and when the terminal states are final. */
module PayrollStates {
  import opened Common
  import opened PayrollLedger
  import opened PayrollPreservation
  import opened PayrollRuns

  /** Nothing happens to a run's state, or it moves along the transition table. */
  predicate Moves(from: RunState, to: RunState) { from == to || TransitionAllowed(from, to) }

  /** With the invariant, every known run has a stored state and a resolved one is not pending. */
  lemma StatesStored(s: Ledger, id: nat)
    requires Reachable(s)
    ensures id in s.runState <==> id in s.pending || id in s.executed || id in s.cancelled
    ensures CurrentState(s, id) == if id in s.runState then Some(s.runState[id]) else None
    ensures id in s.runState ==> id <= s.counter
    ensures id in s.executed && s.executed[id].status == Reconciled ==> s.runState[id] == Completed
    ensures id in s.cancelled ==> s.runState[id] == Cancelled
  {
    ReachableKeeps(s);
    StoredState(s, id);
  }

  /** Preparing and executing write only the new id's state; resolving writes only the resolved run's. */
  lemma RunCallStates(s: Ledger, t: Ledger, e: Env, c: RunCall, id: nat)
    requires TryRun(s, e, c) == Some(t) && id in s.runState && id <= s.counter
    ensures id in t.runState
    ensures c.FinalizeCall? && c.id == id ==> t.runState[id] == ReconciliationRequired && id in s.pending
    ensures c.CancelCall? && c.id == id ==> t.runState[id] == Cancelled && id in s.pending
    ensures !((c.FinalizeCall? || c.CancelCall?) && c.id == id) ==> t.runState[id] == s.runState[id]
    ensures id in s.executed && id !in s.pending ==> id in t.executed && t.executed[id] == s.executed[id]
  {}

  lemma RecordCallStates(s: Ledger, t: Ledger, e: Env, c: RecordCall, id: nat)
    requires TryRecord(s, e, c) == Some(t) && id in s.runState && CurrentState(s, id) == Some(s.runState[id])
    ensures id in t.runState && Moves(s.runState[id], t.runState[id])
    ensures id in s.executed && s.runState[id] == Completed ==> id in t.executed && t.executed[id].status == s.executed[id].status
  {}

  /** No call but the run's own finalization or cancellation leaves the table. */
  lemma StepStates(s: Ledger, ev: Event, id: nat)
    requires Reachable(s) && id in s.runState
    ensures var t := Step(s, ev); id in t.runState && (id !in s.pending ==> Moves(s.runState[id], t.runState[id]))
    ensures id in s.executed && s.runState[id] == Completed ==>
      id in Step(s, ev).executed && Step(s, ev).executed[id].status == s.executed[id].status
  {
    var t := Step(s, ev);
    StatesStored(s, id);
    IdsPartitioned(s, id);
    if Try(s, ev).Some? {
      if ev.call.OnRun? {
        RunCallStates(s, t, ev.env, ev.call.run, id);
      } else {
        OtherStates(s, t, ev, id);
      }
    }
  }

  /** A walk along the transition table. */
  ghost predicate Walk(path: seq<RunState>, from: RunState, to: RunState) {
    && |path| > 0 && path[0] == from && path[|path| - 1] == to
    && forall i :: 0 <= i < |path| - 1 ==> TransitionAllowed(path[i], path[i + 1])
  }

  /** Once a run is resolved, its state walks the transition table for ever. */
  lemma {:induction false} ResolvedWalks(s: Ledger, events: seq<Event>, id: nat) returns (path: seq<RunState>)
    requires Reachable(s) && id in s.runState && id !in s.pending
    ensures id in Run(s, events).runState && Walk(path, s.runState[id], Run(s, events).runState[id])
  {
    if events == [] {
      return [s.runState[id]];
    }
    var before := events[..|events| - 1];
    var mid, last := Run(s, before), events[|events| - 1];
    path := ResolvedWalks(s, before, id);
    ReachableRun(s, before);
    StillResolved(s, before, id);
    StepStates(mid, last, id);
    var next := Step(mid, last).runState[id];
    if next != mid.runState[id] {
      path := path + [next];
    }
  }

  lemma StillResolved(s: Ledger, events: seq<Event>, id: nat)
    requires Reachable(s) && id in s.runState && id !in s.pending
    ensures id !in Run(s, events).pending
  {
    StatesStored(s, id);
    RunGrows(s, events);
  }

  /** So Completed and Cancelled are final for resolved runs; a cancelled run is Cancelled. */
  lemma TerminalFinal(s: Ledger, events: seq<Event>, id: nat)
    requires Reachable(s) && id in s.runState && id !in s.pending
    ensures Terminal(s.runState[id]) ==> id in Run(s, events).runState && Run(s, events).runState[id] == s.runState[id]
    ensures id in s.cancelled ==> s.runState[id] == Cancelled
  {
    StatesStored(s, id);
    var path := ResolvedWalks(s, events, id);
    assert |path| > 1 ==> TransitionAllowed(path[0], path[1]);
  }

  /** An executed run marked Reconciled is Completed, and stays both. */
  lemma {:induction false} ReconciledFinal(s: Ledger, events: seq<Event>, id: nat)
    requires Reachable(s) && id in s.executed && s.executed[id].status == Reconciled
    ensures var t := Run(s, events);
      && id in t.executed && t.executed[id].status == Reconciled
      && id in t.runState && t.runState[id] == Completed
  {
    if events == [] {
      StatesStored(s, id);
    } else {
      var before := events[..|events| - 1];
      var mid := Run(s, before);
      ReconciledFinal(s, before, id);
      ReachableRun(s, before);
      ReachableRun(s, events);
      StepStates(mid, events[|events| - 1], id);
      StatesStored(Run(s, events), id);
    }
  }

  /** Of the other calls, none leaves a terminal state. */
  lemma OtherStates(s: Ledger, t: Ledger, ev: Event, id: nat)
    requires Reachable(s) && Try(s, ev) == Some(t) && !ev.call.OnRun? && id in s.runState
    requires CurrentState(s, id) == Some(s.runState[id])
    ensures id in t.runState && Moves(s.runState[id], t.runState[id])
    ensures id in s.executed && s.runState[id] == Completed ==>
      id in t.executed && t.executed[id].status == s.executed[id].status
  {
    match ev.call
    case OnRecord(c) => RecordCallStates(s, t, ev.env, c, id);
    case OnSettings(c) =>
      UnstartedIsEmpty(s);
      SettingsCallFrame(s, t, ev.env, c);
    case OnTreasury(c) => TreasuryCallFrame(s, t, ev.env, c);
  }

  /** The calls that take a pending run out of a terminal state: its finalization, or from Completed its cancellation. */
  predicate LeavesTerminal(s: Ledger, ev: Event, id: nat)
    requires id in s.runState
  {
    && ev.call.OnRun? && id in s.pending && id != U64_MAX
    && match ev.call.run
       case FinalizeCall(admin, at, expired) =>
         at == id && IsAdmin(s, ev.env, admin) && !ev.env.paused && !expired
       case CancelCall(admin, at, reason) =>
         at == id && IsAdmin(s, ev.env, admin) && reason != "" && s.runState[id] == Completed
       case _ => false
  }

  lemma RunCallLeaves(s: Ledger, e: Env, c: RunCall, id: nat)
    requires Reachable(s) && id in s.runState && id <= s.counter && Terminal(s.runState[id])
    ensures var t := After(s, TryRun(s, e, c));
      id in t.runState && (t.runState[id] != s.runState[id] <==> LeavesTerminal(s, Event(e, OnRun(c)), id))
  {
    if TryRun(s, e, c).Some? {
      RunCallStates(s, TryRun(s, e, c).value, e, c, id);
    }
    if c.FinalizeCall? || c.CancelCall? {
      ResolveAcceptedExactly(s, e, c.admin, c.id);
    }
  }

  /**
   Finalizing and cancelling do not consult the table, so a run that reached a terminal state while
   still pending can leave it, exactly by those calls.
   */
  lemma TerminalRewrittenIff(s: Ledger, ev: Event, id: nat)
    requires Reachable(s) && id in s.runState && Terminal(s.runState[id])
    ensures id in Step(s, ev).runState
    ensures Step(s, ev).runState[id] != s.runState[id] <==> LeavesTerminal(s, ev, id)
  {
    StatesStored(s, id);
    if ev.call.OnRun? {
      RunCallLeaves(s, ev.env, ev.call.run, id);
    } else if Try(s, ev).Some? {
      OtherStates(s, Step(s, ev), ev, id);
    }
  }

  predicate StateKept(s: Ledger, t: Ledger, id: nat)
    requires id in s.runState
  {
    id in t.runState && t.runState[id] == s.runState[id]
  }

  /** The one id that neither finalizing nor cancelling accepts. */
  lemma {:induction false} LastIdStuck(s: Ledger, events: seq<Event>)
    requires Reachable(s) && U64_MAX in s.runState && Terminal(s.runState[U64_MAX])
    ensures StateKept(s, Run(s, events), U64_MAX)
  {
    if events != [] {
      LastIdStuck(s, events[..|events| - 1]);
      ReachableRun(s, events[..|events| - 1]);
      TerminalRewrittenIff(Run(s, events[..|events| - 1]), events[|events| - 1], U64_MAX);
    }
  }

  /** So a terminal state is final exactly when its run has been resolved (or bears the last id). */
  lemma TerminalFinalIff(s: Ledger, id: nat)
    requires Reachable(s) && id in s.runState && Terminal(s.runState[id])
    ensures (forall events :: StateKept(s, Run(s, events), id)) <==> id !in s.pending || id == U64_MAX
  {
    if id in s.pending && id != U64_MAX {
      PendingMeans(s, id);
      var admin := s.addrs.value.admin;
      var ev := Event(Env({admin}, false, 0, 0), OnRun(FinalizeCall(admin, id, false)));
      TerminalRewrittenIff(s, ev, id);
      RunOne(s, ev);
      assert !StateKept(s, Run(s, [ev]), id);
    } else {
      forall events
        ensures StateKept(s, Run(s, events), id)
      {
        if id == U64_MAX {
          LastIdStuck(s, events);
        } else {
          TerminalFinal(s, events, id);
        }
      }
    }
  }
}
