/** The payment executor's entry points as they run: storage updated step by step, and put back on a fault. */
module PaymentExecutor {
  import opened Common
  import opened Token
  import opened PaymentBooks
  import opened PaymentInvariant
  import opened PaymentReuse
  import opened PaymentAcceptance
  import opened PaymentBatch

  /** The records a batch returns. */
  function RecordsOf(e: Env, q: Batch, n: nat): seq<Payment>
    requires LengthsMatch(q) && n <= |q.employees|
  {
    seq(n, i requires 0 <= i < n => RecordOf(e, RequestAt(q, i)))
  }

  lemma RecordsSnoc(e: Env, q: Batch, n: nat)
    requires LengthsMatch(q) && n < |q.employees|
    ensures RecordsOf(e, q, n + 1) == RecordsOf(e, q, n) + [RecordOf(e, RequestAt(q, n))]
  {}

  lemma FoldFails(s: Books, e: Env, q: Batch, n: nat, f: Fault)
    requires LengthsMatch(q) && n < |q.employees| && Fold(s, e, q, n) == Err(f)
    ensures Fold(s, e, q, n + 1) == Err(f)
  {}

  /** Once a payment of a batch fails, the batch has failed with its fault. */
  lemma {:induction false} FoldStuck(s: Books, e: Env, q: Batch, n: nat, m: nat, f: Fault)
    requires LengthsMatch(q) && n <= m <= |q.employees| && Fold(s, e, q, n) == Err(f)
    ensures Fold(s, e, q, m) == Err(f)
    decreases m - n
  {
    if n < m {
      FoldFails(s, e, q, n, f);
      FoldStuck(s, e, q, n + 1, m, f);
    }
  }

  /** The books that some sequence of calls leads to. */
  ghost predicate Reachable(s: Books) { exists balances, events :: s == Run(Opening(balances), events) }

  lemma RunSnoc(s: Books, events: seq<Event>, ev: Event)
    ensures Run(s, events + [ev]) == Step(Run(s, events), ev)
  {
    assert (events + [ev])[..|events|] == events;
  }

  lemma ReachableInv(s: Books)
    requires Reachable(s)
    ensures Inv(s)
  {
    var balances, events :| s == Run(Opening(balances), events);
    RunKeeps(balances, events);
  }

  lemma ReachableStep(s: Books, ev: Event)
    requires Reachable(s)
    ensures Reachable(Step(s, ev))
  {
    var balances, events :| s == Run(Opening(balances), events);
    RunSnoc(Opening(balances), events, ev);
  }

  /** What the types of the stored values guarantee. */
  lemma ReachableTyped(s: Books, company: nat)
    requires Reachable(s)
    ensures s.config.decimals <= 18 && InI128(TotalPaid(s, company))
  {
    var balances, events :| s == Run(Opening(balances), events);
    DecimalsBounded(balances, events);
    TotalsTyped(balances, events, company);
  }

  lemma PayReachable(s: Books, e: Env, q: Request)
    requires Reachable(s)
    ensures Reachable(After(s, Pay(s, e, q)))
  {
    ReachableStep(s, Event(e, PayCall(q)));
  }

  lemma BatchReachable(s: Books, e: Env, q: Batch)
    requires Reachable(s)
    ensures Reachable(After(s, PayBatch(s, e, q)))
  {
    ReachableStep(s, Event(e, BatchCall(q)));
  }

  /** A period is the same in both. */
  ghost predicate Frozen(s: Books, t: Books, key: PeriodKey) {
    key in s.periods && key in t.periods && t.periods[key] == s.periods[key]
  }

  /** All of a company's periods are closed. */
  ghost predicate AllClosed(periods: map<PeriodKey, Period>, company: nat) {
    forall key :: key in periods && key.company == company ==> periods[key].closed
  }

  /** The registry knows the company, its admin has authorised, and the contract is running. */
  predicate AdminSigned(s: Books, e: Env, registry: Option<Company>) {
    s.config.initialized && !e.paused && registry.Some? && registry.value.admin in e.auth
  }

  /** A period is opened exactly when all the company's periods are closed; its id is never taken. */
  lemma OpensIff(s: Books, e: Env, company: nat, registry: Option<Company>)
    requires Numbered(s.sequence, s.periods)
    ensures CreatePeriod(s, e, company, registry).Ok? <==>
      AdminSigned(s, e, registry) && NextPeriod(s.sequence, company) < 4_294_967_295 && AllClosed(s.periods, company)
  {
    var next := NextPeriod(s.sequence, company);
    assert next > 1 ==> PeriodKey(company, next - 1) in s.periods;
  }

  /** The open period is the newest, so closing it closes the last one open. */
  lemma ClosesLast(s: Books, e: Env, company: nat, id: nat, registry: Option<Company>)
    requires Numbered(s.sequence, s.periods) && ClosePeriod(s, e, company, id, registry).Ok?
    ensures id + 1 == NextPeriod(s.sequence, company)
    ensures AllClosed(ClosePeriod(s, e, company, id, registry).value.periods, company)
  {}

  class Executor {
    var config: Config
    var sequence: map<nat, nat>
    var periods: map<PeriodKey, Period>
    var payments: map<PaymentKey, Payment>
    var nullifiers: set<Digest>
    var totals: map<nat, int>
    var balances: Balances

    function View(): Books
      reads this
    {
      Books(config, sequence, periods, payments, nullifiers, totals, balances)
    }

    ghost predicate Valid()
      reads this
    {
      Reachable(View())
    }

    constructor (start: Balances)
      ensures Valid() && View() == Opening(start)
    {
      config, sequence, periods, payments := Config(false, false, 0), map[], map[], map[];
      nullifiers, totals, balances := {}, map[], start;
      new;
      assert View() == Run(Opening(start), []);
    }

    /** What the host does when a call aborts. */
    method Restore(s: Books)
      modifies this
      ensures View() == s
    {
      config, sequence, periods, payments := s.config, s.sequence, s.periods, s.payments;
      nullifiers, totals, balances := s.nullifiers, s.totals, s.balances;
    }

    /** Succeeds exactly when nothing of the company's is open; the new period is then its only open one. */
    method OpenPeriod(e: Env, company: nat, registry: Option<Company>) returns (r: Result<Period>)
      requires Valid()
      modifies this
      ensures Valid() && View() == After(old(View()), CreatePeriod(old(View()), e, company, registry))
      ensures r == match CreatePeriod(old(View()), e, company, registry)
                   case Ok(t) => Ok(Period(e.ledger, 0, e.now, false, 0))
                   case Err(f) => Err(f)
      ensures r.Ok? <==>
        AdminSigned(old(View()), e, registry) && NextPeriod(old(sequence), company) < 4_294_967_295 && AllClosed(old(periods), company)
      ensures r.Ok? ==> AllClosed(periods - {PeriodKey(company, NextPeriod(old(sequence), company))}, company)
    {
      ReachableStep(View(), Event(e, CreateCall(company, registry)));
      ReachableInv(View());
      OpensIff(View(), e, company, registry);
      if !Authorised(View(), e, registry) {
        return Err(Panic);
      }
      var next := NextPeriod(sequence, company);
      var key := PeriodKey(company, next);
      if key in periods {
        return Err(PeriodAlreadyExists);
      }
      if next > 1 {
        var previous := PeriodKey(company, next - 1);
        if previous in periods && !periods[previous].closed {
          return Err(PeriodAlreadyExists);
        }
      }
      if next >= U32_MAX {
        return Err(Panic);
      }
      var period := Period(e.ledger, 0, e.now, false, 0);
      periods := periods[key := period];
      sequence := sequence[company := next + 1];
      return Ok(period);
    }

    /** Closes the company's one open period, for ever. */
    method EndPeriod(e: Env, company: nat, id: nat, registry: Option<Company>) returns (r: Result<Period>)
      requires Valid()
      modifies this
      ensures Valid() && View() == After(old(View()), ClosePeriod(old(View()), e, company, id, registry))
      ensures match ClosePeriod(old(View()), e, company, id, registry)
              case Ok(t) => PeriodKey(company, id) in periods && r == Ok(periods[PeriodKey(company, id)])
              case Err(f) => r == Err(f)
      ensures r.Ok? <==>
        AdminSigned(old(View()), e, registry)
        && PeriodKey(company, id) in old(periods) && !old(periods)[PeriodKey(company, id)].closed
      ensures r.Ok? ==> r.value == old(periods)[PeriodKey(company, id)].(closed := true, endLedger := e.ledger)
      ensures r.Ok? ==> AllClosed(periods, company) && id + 1 == NextPeriod(sequence, company)
      ensures r.Ok? ==> forall events :: Frozen(View(), Run(View(), events), PeriodKey(company, id))
    {
      ReachableStep(View(), Event(e, CloseCall(company, id, registry)));
      ReachableInv(View());
      if !Authorised(View(), e, registry) {
        return Err(Panic);
      }
      var key := PeriodKey(company, id);
      if key !in periods {
        return Err(PeriodNotFound);
      }
      var period := periods[key];
      if period.closed {
        return Err(PeriodClosed);
      }
      ClosesLast(View(), e, company, id, registry);
      period := period.(closed := true);
      period := period.(endLedger := e.ledger);
      periods := periods[key := period];
      forall events
        ensures Frozen(View(), Run(View(), events), key)
      {
        ClosedForever(View(), events, key);
      }
      return Ok(period);
    }

    /** A payment made is refused ever after, under this nullifier and for this employee and period number. */
    method ExecutePayment(e: Env, q: Request) returns (r: Result<Payment>)
      requires Valid()
      modifies this
      ensures Valid() && View() == After(old(View()), Pay(old(View()), e, q))
      ensures r == match Pay(old(View()), e, q) case Ok(t) => Ok(RecordOf(e, q)) case Err(f) => Err(f)
      ensures r.Ok? <==> Acceptable(old(View()), e, q)
      ensures r.Ok? ==> Used(View(), q) && Supply(balances) == Supply(old(balances))
      ensures r.Ok? ==> forall events, e' :: Pay(Run(View(), events), e', q).Err?
    {
      PayReachable(View(), e, q);
      ReachableTyped(View(), q.company);
      PayIff(View(), e, q);
      ghost var before := View();
      r := PayOne(e, q);
      if r.Ok? {
        PayExtends(before, e, q);
        forall events, e'
          ensures Pay(Run(View(), events), e', q).Err?
        {
          NeverPaidTwice(View(), events, e', q);
        }
      }
    }

    /** Its work: a late fault finds earlier writes already made, so they are put back. */
    method PayOne(e: Env, q: Request) returns (r: Result<Payment>)
      modifies this
      ensures View() == After(old(View()), Pay(old(View()), e, q))
      ensures r == match Pay(old(View()), e, q) case Ok(t) => Ok(RecordOf(e, q)) case Err(f) => Err(f)
    {
      var snapshot := View();
      var fault := PaymentFault(snapshot, e, q);
      if fault.Some? {
        return Err(fault.value);
      }
      var key := PeriodKey(q.company, q.period);
      var moved := Transfer(balances, q.registry.value.treasury, q.employee, q.amount);
      if moved.None? {
        return Err(Panic);
      }
      balances := moved.value;
      var record := RecordOf(e, q);
      payments := payments[PaymentKey(q.employee, q.period) := record];
      nullifiers := nullifiers + {q.nullifier};
      var period := periods[key];
      if period.payments >= U32_MAX {
        Restore(snapshot);
        return Err(Panic);
      }
      periods := periods[key := period.(payments := period.payments + 1)];
      var total := if q.company in totals then totals[q.company] else 0;
      if !InI128(total + q.amount) {
        Restore(snapshot);
        return Err(Panic);
      }
      totals := totals[q.company := total + q.amount];
      return Ok(record);
    }

    /** One turn of the batch loop. */
    method PayNext(e: Env, q: Batch, i: nat, ghost start: Books) returns (r: Result<Payment>)
      requires LengthsMatch(q) && i < |q.employees| && Fold(start, e, q, i) == Ok(View())
      modifies this
      ensures match Fold(start, e, q, i + 1)
              case Ok(t) => View() == t && r == Ok(RecordOf(e, RequestAt(q, i)))
              case Err(f) => r == Err(f)
    {
      r := PayOne(e, RequestAt(q, i));
    }

    /** `execute_batch_payroll`: the loop is the fold, and any fault undoes all of it. */
    method ExecuteBatch(e: Env, q: Batch) returns (r: Result<seq<Payment>>)
      requires Valid()
      modifies this
      ensures Valid() && View() == After(old(View()), PayBatch(old(View()), e, q))
      ensures match PayBatch(old(View()), e, q)
              case Ok(t) => LengthsMatch(q) && r == Ok(RecordsOf(e, q, |q.employees|))
              case Err(f) => r == Err(f)
      ensures r.Ok? <==> Accepted(old(View()), e, q)
    {
      BatchReachable(View(), e, q);
      ReachableTyped(View(), q.company);
      BatchSucceedsIff(View(), e, q);
      if !LengthsMatch(q) {
        return Err(ArrayLengthMismatch);
      }
      if |q.employees| == 0 {
        return Err(EmptyBatch);
      }
      r := PayEach(e, q);
    }

    method PayEach(e: Env, q: Batch) returns (r: Result<seq<Payment>>)
      requires LengthsMatch(q)
      modifies this
      ensures View() == After(old(View()), Fold(old(View()), e, q, |q.employees|))
      ensures match Fold(old(View()), e, q, |q.employees|)
              case Ok(t) => r == Ok(RecordsOf(e, q, |q.employees|))
              case Err(f) => r == Err(f)
    {
      var snapshot := View();
      var records: seq<Payment> := [];
      for i := 0 to |q.employees|
        invariant Fold(snapshot, e, q, i) == Ok(View())
        invariant records == RecordsOf(e, q, i)
      {
        var one := PayNext(e, q, i, snapshot);
        if one.Err? {
          FoldStuck(snapshot, e, q, i + 1, |q.employees|, one.fault);
          Restore(snapshot);
          return Err(one.fault);
        }
        RecordsSnoc(e, q, i);
        records := records + [one.value];
      }
      return Ok(records);
    }
  }
}
