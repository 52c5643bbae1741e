/**
 Exactly when the payment executor makes a payment, what fault it gives otherwise and what a payment
 leaves, in terms of the stored fields, the callers and plain numbers.
 */
module PaymentAcceptance {
  import opened Common
  import opened Token
  import opened PaymentBooks

  /** The period of a request exists, is open and was created at most seven days ago. */
  predicate PeriodOpen(s: Books, e: Env, company: nat, period: nat) {
    && PeriodKey(company, period) in s.periods
    && !s.periods[PeriodKey(company, period)].closed
    && e.now <= s.periods[PeriodKey(company, period)].createdAt + 604_800
  }

  /** The least amount but zero that may be paid: a billionth of the token's unit. */
  function LeastAmount(decimals: nat): nat {
    match decimals
    case 10 => 10
    case 11 => 100
    case 12 => 1_000
    case 13 => 10_000
    case 14 => 100_000
    case 15 => 1_000_000
    case 16 => 10_000_000
    case 17 => 100_000_000
    case 18 => 1_000_000_000
    case _ => 1
  }

  /** Company admin and treasury have authorised, the proof is good, and token and amount are in order. */
  predicate TermsMet(s: Books, e: Env, registry: Option<Company>, amount: int, verified: bool) {
    && registry.Some? && registry.value.admin in e.auth && registry.value.treasury in e.auth
    && verified && s.config.allowed && s.config.decimals > 0
    && (amount == 0 || amount >= LeastAmount(s.config.decimals))
  }

  // ------------------------------------------------------------------ the guard on small amounts

  lemma PowersOfTen()
    ensures PowerOfTen(1) == 10 && PowerOfTen(2) == 100 && PowerOfTen(3) == 1_000 && PowerOfTen(4) == 10_000
    ensures PowerOfTen(5) == 100_000 && PowerOfTen(6) == 1_000_000 && PowerOfTen(7) == 10_000_000
    ensures PowerOfTen(8) == 100_000_000 && PowerOfTen(9) == 1_000_000_000
  {}

  lemma MorePowersOfTen()
    ensures PowerOfTen(10) == 10_000_000_000 && PowerOfTen(11) == 100_000_000_000 && PowerOfTen(12) == 1_000_000_000_000
    ensures PowerOfTen(13) == 10_000_000_000_000 && PowerOfTen(14) == 100_000_000_000_000
    ensures PowerOfTen(15) == 1_000_000_000_000_000 && PowerOfTen(16) == 10_000_000_000_000_000
    ensures PowerOfTen(17) == 100_000_000_000_000_000 && PowerOfTen(18) == 1_000_000_000_000_000_000
  {
    PowersOfTen();
  }

  lemma LeastAmountIs(decimals: nat, amount: int)
    requires decimals <= 18
    ensures amount < 0 || (amount > 0 && amount < PowerOfTen(decimals) / 1_000_000_000) <==>
      !(amount == 0 || amount >= LeastAmount(decimals))
  {
    PowersOfTen();
    MorePowersOfTen();
    if decimals == 0 {
      assert PowerOfTen(0) == 1;
    }
  }

  /** Configuration never admits more than eighteen decimals. */
  lemma {:induction false} DecimalsBounded(balances: Balances, events: seq<Event>)
    ensures Run(Opening(balances), events).config.decimals <= 18
  {
    if events != [] {
      DecimalsBounded(balances, events[..|events| - 1]);
      StepDecimals(Run(Opening(balances), events[..|events| - 1]), events[|events| - 1]);
    }
  }

  lemma {:induction false} FoldConfig(s: Books, e: Env, q: Batch, n: nat)
    requires LengthsMatch(q) && n <= |q.employees| && Fold(s, e, q, n).Ok?
    ensures Fold(s, e, q, n).value.config == s.config
  {
    if n > 0 {
      FoldConfig(s, e, q, n - 1);
    }
  }

  lemma StepDecimals(s: Books, ev: Event)
    requires s.config.decimals <= 18
    ensures Step(s, ev).config.decimals <= 18
  {
    if Try(s, ev).Ok? && ev.call.BatchCall? {
      FoldConfig(s, ev.env, ev.call.batch, |ev.call.batch.employees|);
    }
  }

  // ------------------------------------------------------------------ one payment

  lemma PeriodOpenIff(s: Books, e: Env, company: nat, period: nat)
    ensures PeriodFault(s, e, PeriodKey(company, period)).None? <==>
      s.config.initialized && !e.paused && PeriodOpen(s, e, company, period)
  {}

  lemma TermsMetIff(s: Books, e: Env, q: Request)
    requires s.config.decimals <= 18
    ensures TermsFault(s.config, e, q).None? <==> TermsMet(s, e, q.registry, q.amount, q.verified)
  {
    LeastAmountIs(s.config.decimals, q.amount);
  }

  /** All that a payment needs. */
  predicate Acceptable(s: Books, e: Env, q: Request) {
    && s.config.initialized && !e.paused && PeriodOpen(s, e, q.company, q.period)
    && q.nullifier !in s.nullifiers && PaymentKey(q.employee, q.period) !in s.payments
    && TermsMet(s, e, q.registry, q.amount, q.verified)
    && 0 <= q.amount <= Of(s.balances, q.registry.value.treasury)
    && s.periods[PeriodKey(q.company, q.period)].payments < 4_294_967_295
    && -0x8000_0000_0000_0000_0000_0000_0000_0000 <= TotalPaid(s, q.company) + q.amount
         <= 0x7FFF_FFFF_FFFF_FFFF_FFFF_FFFF_FFFF_FFFF
  }

  lemma PayIff(s: Books, e: Env, q: Request)
    requires s.config.decimals <= 18
    ensures Pay(s, e, q).Ok? <==> Acceptable(s, e, q)
  {
    PeriodOpenIff(s, e, q.company, q.period);
    TermsMetIff(s, e, q);
  }

  /** The faults about the period and about reuse. */
  lemma PayFaults(s: Books, e: Env, q: Request)
    requires s.config.initialized && !e.paused
    ensures var key, r := PeriodKey(q.company, q.period), Pay(s, e, q);
      && (r == Err(PeriodNotFound) <==> key !in s.periods)
      && (r == Err(PeriodClosed) <==> key in s.periods && s.periods[key].closed)
      && (r == Err(ProofExpired) <==>
            key in s.periods && !s.periods[key].closed && e.now > s.periods[key].createdAt + 604_800)
      && (r == Err(ProofAlreadyUsed) <==> PeriodOpen(s, e, q.company, q.period) && q.nullifier in s.nullifiers)
  {}

  /** The request is sound but for the token's decimals. */
  predicate ButForDecimals(s: Books, e: Env, q: Request) {
    && s.config.initialized && !e.paused && PeriodOpen(s, e, q.company, q.period)
    && q.nullifier !in s.nullifiers && PaymentKey(q.employee, q.period) !in s.payments
    && q.registry.Some? && q.registry.value.admin in e.auth && q.registry.value.treasury in e.auth
    && q.amount >= 0 && q.verified && s.config.allowed
  }

  /** The faults about decimals. */
  lemma DecimalsFaults(s: Books, e: Env, q: Request)
    requires s.config.decimals <= 18
    ensures Pay(s, e, q) == Err(AssetDecimalsMissing) <==> ButForDecimals(s, e, q) && s.config.decimals == 0
    ensures Pay(s, e, q) == Err(AssetDecimalsMismatch) <==>
      ButForDecimals(s, e, q) && s.config.decimals > 0 && 0 < q.amount < LeastAmount(s.config.decimals)
  {
    PeriodOpenIff(s, e, q.company, q.period);
    LeastAmountIs(s.config.decimals, q.amount);
  }

  /** What a payment leaves. */
  lemma PayLeaves(s: Books, t: Books, e: Env, q: Request, a: Address)
    requires Pay(s, e, q) == Ok(t)
    ensures q.registry.Some? && PeriodKey(q.company, q.period) in s.periods
    ensures t.payments == s.payments[PaymentKey(q.employee, q.period) :=
      Payment(q.company, q.employee, q.nullifier, e.now, q.period)]
    ensures t.nullifiers == s.nullifiers + {q.nullifier} && t.config == s.config && t.sequence == s.sequence
    ensures Of(t.balances, a) == Of(s.balances, a) + (if a == q.employee then q.amount else 0)
      - (if a == q.registry.value.treasury then q.amount else 0)
    ensures var key := PeriodKey(q.company, q.period); var p := s.periods[key];
      t.periods == s.periods[key := Period(p.startLedger, p.endLedger, p.createdAt, p.closed, p.payments + 1)]
  {}

  /** Vectors of different lengths and an empty batch are refused as such. */
  lemma BatchShape(s: Books, e: Env, q: Batch)
    ensures var n := |q.employees|;
      && (|q.amounts| != n || |q.nullifiers| != n || q.proofs != (n, n, n) ==> PayBatch(s, e, q) == Err(ArrayLengthMismatch))
      && (|q.amounts| == n && |q.nullifiers| == n && q.proofs == (n, n, n) && n == 0 ==> PayBatch(s, e, q) == Err(EmptyBatch))
  {}

  // ------------------------------------------------------------------ periods

  lemma CreateLeaves(s: Books, t: Books, e: Env, company: nat, registry: Option<Company>)
    requires CreatePeriod(s, e, company, registry) == Ok(t)
    ensures var id := if company in s.sequence then s.sequence[company] else 1;
      && t.periods == s.periods[PeriodKey(company, id) := Period(e.ledger, 0, e.now, false, 0)]
      && t.sequence == s.sequence[company := id + 1]
      && t == s.(periods := t.periods, sequence := t.sequence)
  {}

  lemma CloseLeaves(s: Books, t: Books, e: Env, company: nat, id: nat, registry: Option<Company>)
    requires ClosePeriod(s, e, company, id, registry) == Ok(t)
    ensures PeriodKey(company, id) in s.periods
    ensures var p := s.periods[PeriodKey(company, id)];
      t == s.(periods := s.periods[PeriodKey(company, id) := Period(p.startLedger, e.ledger, p.createdAt, true, p.payments)])
  {}

  lemma CloseFaults(s: Books, e: Env, company: nat, id: nat, registry: Option<Company>)
    requires s.config.initialized && !e.paused && registry.Some? && registry.value.admin in e.auth
    ensures var key, r := PeriodKey(company, id), ClosePeriod(s, e, company, id, registry);
      && (r == Err(PeriodNotFound) <==> key !in s.periods)
      && (r == Err(PeriodClosed) <==> key in s.periods && s.periods[key].closed)
      && (r.Ok? <==> key in s.periods && !s.periods[key].closed)
  {}
}
