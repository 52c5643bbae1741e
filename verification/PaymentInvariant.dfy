/** What every entry point of the payment executor keeps, and what holds over its runs. */
module PaymentInvariant {
  import opened Common
  import opened Token
  import opened PaymentBooks

  // ------------------------------------------------------------------ the invariant

  /** A company's periods are 1 up to the next id, and all but the newest are closed. */
  ghost predicate Numbered(sequence: map<nat, nat>, periods: map<PeriodKey, Period>) {
    && (forall c :: c in sequence ==> sequence[c] >= 1)
    && (forall key: PeriodKey :: key in periods <==> 1 <= key.id < NextPeriod(sequence, key.company))
    && (forall key :: key in periods && key.id + 1 < NextPeriod(sequence, key.company) ==> periods[key].closed)
  }

  /** A payment record agrees with its key, and was made in a period not more than seven days old. */
  ghost predicate Filed(periods: map<PeriodKey, Period>, payments: map<PaymentKey, Payment>) {
    forall k :: k in payments ==>
      var p := payments[k];
      && p.employee == k.employee && p.period == k.period && PeriodKey(p.company, p.period) in periods
      && p.timestamp <= periods[PeriodKey(p.company, p.period)].createdAt + MAX_PROOF_AGE
  }

  ghost function PaidIn(payments: map<PaymentKey, Payment>, key: PeriodKey): set<PaymentKey> {
    set k | k in payments && payments[k].company == key.company && payments[k].period == key.id
  }

  /** Each period counts its payment records. */
  ghost predicate Counted(periods: map<PeriodKey, Period>, payments: map<PaymentKey, Payment>) {
    forall key :: key in periods ==> periods[key].payments == |PaidIn(payments, key)|
  }

  ghost predicate Spends(payments: map<PaymentKey, Payment>, n: Digest) {
    exists k :: k in payments && payments[k].proofHash == n
  }

  /** Nullifiers and payments correspond one to one. */
  ghost predicate Matched(nullifiers: set<Digest>, payments: map<PaymentKey, Payment>) {
    && (forall n :: n in nullifiers <==> Spends(payments, n))
    && (forall k, l :: k in payments && l in payments && payments[k].proofHash == payments[l].proofHash ==> k == l)
  }

  ghost predicate Inv(s: Books) {
    && Numbered(s.sequence, s.periods)
    && Filed(s.periods, s.payments)
    && Counted(s.periods, s.payments)
    && Matched(s.nullifiers, s.payments)
  }

  // ------------------------------------------------------------------ one payment

  lemma MatchedAdd(nullifiers: set<Digest>, payments: map<PaymentKey, Payment>, k: PaymentKey, p: Payment)
    requires Matched(nullifiers, payments) && k !in payments && p.proofHash !in nullifiers
    ensures Matched(nullifiers + {p.proofHash}, payments[k := p])
  {
    var more := payments[k := p];
    assert more[k].proofHash == p.proofHash;
    forall n
      ensures n in nullifiers + {p.proofHash} <==> Spends(more, n)
    {
      if Spends(payments, n) {
        var l :| l in payments && payments[l].proofHash == n;
        assert l in more && more[l].proofHash == n;
      }
      if Spends(more, n) {
        var l :| l in more && more[l].proofHash == n;
        assert l == k || (l in payments && payments[l].proofHash == n);
      }
    }
    forall l | l in payments
      ensures payments[l].proofHash != p.proofHash
    {
      assert Spends(payments, payments[l].proofHash);
    }
  }

  lemma CountedAdd(periods: map<PeriodKey, Period>, payments: map<PaymentKey, Payment>, k: PaymentKey, p: Payment)
    requires Counted(periods, payments) && k !in payments && PeriodKey(p.company, p.period) in periods
    ensures var key := PeriodKey(p.company, p.period);
      Counted(periods[key := periods[key].(payments := periods[key].payments + 1)], payments[k := p])
  {
    var home, more := PeriodKey(p.company, p.period), payments[k := p];
    forall key | key in periods
      ensures |PaidIn(more, key)| == |PaidIn(payments, key)| + if key == home then 1 else 0
    {
      if key == home {
        assert PaidIn(more, key) == PaidIn(payments, key) + {k};
      } else {
        assert PaidIn(more, key) == PaidIn(payments, key);
      }
    }
  }

  /** Counting one more payment touches neither the numbering nor a creation time. */
  lemma RecountKeeps(sequence: map<nat, nat>, periods: map<PeriodKey, Period>, key: PeriodKey, count: nat)
    requires key in periods && Numbered(sequence, periods)
    ensures Numbered(sequence, periods[key := periods[key].(payments := count)])
  {}

  lemma FiledAdd(periods: map<PeriodKey, Period>, payments: map<PaymentKey, Payment>, p: Payment, count: nat)
    requires Filed(periods, payments) && PeriodKey(p.company, p.period) in periods
    requires p.timestamp <= periods[PeriodKey(p.company, p.period)].createdAt + MAX_PROOF_AGE
    ensures var key := PeriodKey(p.company, p.period);
      Filed(periods[key := periods[key].(payments := count)], payments[PaymentKey(p.employee, p.period) := p])
  {}

  lemma BookKeeps(s: Books, e: Env, q: Request, moved: Balances)
    requires Inv(s) && PeriodKey(q.company, q.period) in s.periods
    requires e.now <= s.periods[PeriodKey(q.company, q.period)].createdAt + MAX_PROOF_AGE
    requires q.nullifier !in s.nullifiers && PaymentKey(q.employee, q.period) !in s.payments
    ensures Inv(Book(s, e, q, moved))
  {
    var home, k, p := PeriodKey(q.company, q.period), PaymentKey(q.employee, q.period), RecordOf(e, q);
    var count := s.periods[home].payments + 1;
    RecountKeeps(s.sequence, s.periods, home, count);
    FiledAdd(s.periods, s.payments, p, count);
    CountedAdd(s.periods, s.payments, k, p);
    MatchedAdd(s.nullifiers, s.payments, k, p);
  }

  lemma PayKeeps(s: Books, e: Env, q: Request)
    requires Inv(s) && Pay(s, e, q).Ok?
    ensures Inv(Pay(s, e, q).value)
  {
    BookKeeps(s, e, q, Transfer(s.balances, q.registry.value.treasury, q.employee, q.amount).value);
  }

  lemma {:induction false} FoldKeeps(s: Books, e: Env, q: Batch, n: nat)
    requires Inv(s) && LengthsMatch(q) && n <= |q.employees| && Fold(s, e, q, n).Ok?
    ensures Inv(Fold(s, e, q, n).value)
  {
    if n > 0 {
      FoldKeeps(s, e, q, n - 1);
      PayKeeps(Fold(s, e, q, n - 1).value, e, RequestAt(q, n - 1));
    }
  }

  // ------------------------------------------------------------------ periods

  lemma NumberedAdd(sequence: map<nat, nat>, periods: map<PeriodKey, Period>, company: nat, p: Period)
    requires Numbered(sequence, periods)
    requires var next := NextPeriod(sequence, company);
      next > 1 ==> PeriodKey(company, next - 1) in periods && periods[PeriodKey(company, next - 1)].closed
    ensures PeriodKey(company, NextPeriod(sequence, company)) !in periods
    ensures var next := NextPeriod(sequence, company);
      Numbered(sequence[company := next + 1], periods[PeriodKey(company, next) := p])
  {}

  lemma CountedOpen(periods: map<PeriodKey, Period>, payments: map<PaymentKey, Payment>, key: PeriodKey, p: Period)
    requires Counted(periods, payments) && Filed(periods, payments) && key !in periods && p.payments == 0
    ensures Counted(periods[key := p], payments) && Filed(periods[key := p], payments)
  {
    assert PaidIn(payments, key) == {};
  }

  lemma CreateKeeps(s: Books, e: Env, company: nat, registry: Option<Company>)
    requires Inv(s) && CreatePeriod(s, e, company, registry).Ok?
    ensures Inv(CreatePeriod(s, e, company, registry).value)
  {
    var p := Period(e.ledger, 0, e.now, false, 0);
    NumberedAdd(s.sequence, s.periods, company, p);
    CountedOpen(s.periods, s.payments, PeriodKey(company, NextPeriod(s.sequence, company)), p);
  }

  lemma CloseKeeps(s: Books, e: Env, company: nat, id: nat, registry: Option<Company>)
    requires Inv(s) && ClosePeriod(s, e, company, id, registry).Ok?
    ensures Inv(ClosePeriod(s, e, company, id, registry).value)
  {}

  lemma StepKeeps(s: Books, ev: Event)
    requires Inv(s)
    ensures Inv(Step(s, ev))
  {
    if Try(s, ev).Ok? {
      match ev.call
      case ConfigureCall(_) =>
      case CreateCall(company, registry) => CreateKeeps(s, ev.env, company, registry);
      case CloseCall(company, id, registry) => CloseKeeps(s, ev.env, company, id, registry);
      case PayCall(q) => PayKeeps(s, ev.env, q);
      case BatchCall(q) => FoldKeeps(s, ev.env, q, |q.employees|);
      case TokenCall(_, _, _) =>
    }
  }

  /** The invariant holds after any run, whoever calls and whatever the registry and the verifier answer. */
  lemma {:induction false} RunKeeps(balances: Balances, events: seq<Event>)
    ensures Inv(Run(Opening(balances), events))
  {
    if events != [] {
      RunKeeps(balances, events[..|events| - 1]);
      StepKeeps(Run(Opening(balances), events[..|events| - 1]), events[|events| - 1]);
    }
  }

  // ------------------------------------------------------------------ closed periods

  lemma {:induction false} FoldLeavesClosed(s: Books, e: Env, q: Batch, n: nat, key: PeriodKey)
    requires LengthsMatch(q) && n <= |q.employees| && Fold(s, e, q, n).Ok?
    requires key in s.periods && s.periods[key].closed
    ensures var t := Fold(s, e, q, n).value; key in t.periods && t.periods[key] == s.periods[key]
  {
    if n > 0 {
      FoldLeavesClosed(s, e, q, n - 1, key);
    }
  }

  lemma StepLeavesClosed(s: Books, ev: Event, key: PeriodKey)
    requires key in s.periods && s.periods[key].closed
    ensures var t := Step(s, ev); key in t.periods && t.periods[key] == s.periods[key]
  {
    if Try(s, ev).Ok? && ev.call.BatchCall? {
      FoldLeavesClosed(s, ev.env, ev.call.batch, |ev.call.batch.employees|, key);
    }
  }

  /** A closed period never changes again. */
  lemma {:induction false} ClosedForever(s: Books, events: seq<Event>, key: PeriodKey)
    requires key in s.periods && s.periods[key].closed
    ensures var t := Run(s, events); key in t.periods && t.periods[key] == s.periods[key]
  {
    if events != [] {
      ClosedForever(s, events[..|events| - 1], key);
      StepLeavesClosed(Run(s, events[..|events| - 1]), events[|events| - 1], key);
    }
  }

  // ------------------------------------------------------------------ totals

  /** What one successful invocation pays on a company's behalf. */
  function PaidBy(s: Books, ev: Event, company: nat): int {
    if Try(s, ev).Err? then 0
    else
      match ev.call
      case PayCall(q) => if q.company == company then q.amount else 0
      case BatchCall(q) => if q.company == company then Total(q.amounts) else 0
      case _ => 0
  }

  function Disbursed(s: Books, events: seq<Event>, company: nat): int {
    if events == [] then 0
    else
      var before := events[..|events| - 1];
      Disbursed(s, before, company) + PaidBy(Run(s, before), events[|events| - 1], company)
  }

  lemma {:induction false} FoldTotals(s: Books, e: Env, q: Batch, n: nat, company: nat)
    requires LengthsMatch(q) && n <= |q.employees| && Fold(s, e, q, n).Ok?
    ensures TotalPaid(Fold(s, e, q, n).value, company)
      == TotalPaid(s, company) + if q.company == company then Total(q.amounts[..n]) else 0
  {
    if n > 0 {
      FoldTotals(s, e, q, n - 1, company);
      assert q.amounts[..n][..n - 1] == q.amounts[..n - 1];
    }
  }

  lemma StepTotals(s: Books, ev: Event, company: nat)
    ensures TotalPaid(Step(s, ev), company) == TotalPaid(s, company) + PaidBy(s, ev, company)
  {
    if Try(s, ev).Ok? && ev.call.BatchCall? {
      var q := ev.call.batch;
      FoldTotals(s, ev.env, q, |q.employees|, company);
      assert q.amounts[..|q.employees|] == q.amounts;
    }
  }

  /** A company's total paid is the sum of the amounts of all its executed payments. */
  lemma {:induction false} TotalsExact(balances: Balances, events: seq<Event>, company: nat)
    ensures TotalPaid(Run(Opening(balances), events), company) == Disbursed(Opening(balances), events, company)
  {
    if events != [] {
      TotalsExact(balances, events[..|events| - 1], company);
      StepTotals(Run(Opening(balances), events[..|events| - 1]), events[|events| - 1], company);
    }
  }

  lemma {:induction false} FoldTyped(s: Books, e: Env, q: Batch, n: nat, company: nat)
    requires LengthsMatch(q) && n <= |q.employees| && Fold(s, e, q, n).Ok? && 0 <= TotalPaid(s, company) <= I128_MAX
    ensures 0 <= TotalPaid(Fold(s, e, q, n).value, company) <= I128_MAX
  {
    if n > 0 {
      FoldTyped(s, e, q, n - 1, company);
    }
  }

  /** No total is ever negative or too large for its type. */
  lemma {:induction false} TotalsTyped(balances: Balances, events: seq<Event>, company: nat)
    ensures 0 <= TotalPaid(Run(Opening(balances), events), company) <= I128_MAX
  {
    if events != [] {
      TotalsTyped(balances, events[..|events| - 1], company);
      var s, ev := Run(Opening(balances), events[..|events| - 1]), events[|events| - 1];
      if Try(s, ev).Ok? && ev.call.BatchCall? {
        FoldTyped(s, ev.env, ev.call.batch, |ev.call.batch.employees|, company);
      }
    }
  }

  // ------------------------------------------------------------------ permanence and conservation

  /** Nothing recorded is lost or rewritten, and no token appears or vanishes. */
  ghost predicate Extends(s: Books, t: Books) {
    && (forall k :: k in s.payments ==> k in t.payments && t.payments[k] == s.payments[k])
    && s.nullifiers <= t.nullifiers
    && Supply(t.balances) == Supply(s.balances)
  }

  lemma PayExtends(s: Books, e: Env, q: Request)
    requires Pay(s, e, q).Ok?
    ensures Extends(s, Pay(s, e, q).value)
  {
    TransferConserves(s.balances, q.registry.value.treasury, q.employee, q.amount);
  }

  lemma {:induction false} FoldExtends(s: Books, e: Env, q: Batch, n: nat)
    requires LengthsMatch(q) && n <= |q.employees| && Fold(s, e, q, n).Ok?
    ensures Extends(s, Fold(s, e, q, n).value)
  {
    if n > 0 {
      FoldExtends(s, e, q, n - 1);
      PayExtends(Fold(s, e, q, n - 1).value, e, RequestAt(q, n - 1));
    }
  }

  lemma StepExtends(s: Books, ev: Event)
    ensures Extends(s, Step(s, ev))
  {
    if Try(s, ev).Ok? {
      match ev.call
      case ConfigureCall(_) =>
      case CreateCall(_, _) =>
      case CloseCall(_, _, _) =>
      case PayCall(q) => PayExtends(s, ev.env, q);
      case BatchCall(q) => FoldExtends(s, ev.env, q, |q.employees|);
      case TokenCall(from, to, amount) => TransferConserves(s.balances, from, to, amount);
    }
  }

  /** Payments and nullifiers are permanent, and every run conserves the supply. */
  lemma {:induction false} RunExtends(s: Books, events: seq<Event>)
    ensures Extends(s, Run(s, events))
  {
    if events != [] {
      RunExtends(s, events[..|events| - 1]);
      StepExtends(Run(s, events[..|events| - 1]), events[|events| - 1]);
    }
  }
}
