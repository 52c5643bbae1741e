/**
 The payment executor's storage and what each entry point does to it
 (contracts/payment_executor/src/lib.rs). An error return and a panic both discard every write of
 the call, so an entry point is a function to either the new books or the fault.
 */
module PaymentBooks {
  import opened Common
  import opened Token

  /** Seven days. */
  const MAX_PROOF_AGE: nat := 7 * 24 * 60 * 60

  datatype Fault =
    | ProofAlreadyUsed | ArrayLengthMismatch | AlreadyPaid | PeriodNotFound | PeriodClosed
    | PeriodAlreadyExists | ProofExpired | EmptyBatch | AssetDecimalsMissing | AssetDecimalsMismatch
    | Panic

  datatype Result<+T> = Ok(value: T) | Err(fault: Fault)

  datatype PeriodKey = PeriodKey(company: nat, id: nat)

  datatype Period = Period(startLedger: nat, endLedger: nat, createdAt: nat, closed: bool, payments: nat)

  datatype PaymentKey = PaymentKey(employee: Address, period: nat)

  datatype Payment = Payment(company: nat, employee: Address, proofHash: Digest, timestamp: nat, period: nat)

  /** Whether the contract is initialized, whether its token is allowed, and the token's decimals (0: unset). */
  datatype Config = Config(initialized: bool, allowed: bool, decimals: nat)

  /** What the registry answers about a company. */
  datatype Company = Company(admin: Address, treasury: Address)

  datatype Books = Books(
    config: Config,
    sequence: map<nat, nat>,
    periods: map<PeriodKey, Period>,
    payments: map<PaymentKey, Payment>,
    nullifiers: set<Digest>,
    totals: map<nat, int>,
    balances: Balances)

  function Opening(balances: Balances): Books {
    Books(Config(false, false, 0), map[], map[], map[], {}, map[], balances)
  }

  // ------------------------------------------------------------------ periods

  function NextPeriod(sequence: map<nat, nat>, company: nat): nat {
    if company in sequence then sequence[company] else 1
  }

  predicate Authorised(s: Books, e: Env, registry: Option<Company>) {
    !e.paused && s.config.initialized && registry.Some? && registry.value.admin in e.auth
  }

  function CreatePeriod(s: Books, e: Env, company: nat, registry: Option<Company>): Result<Books> {
    if !Authorised(s, e, registry) then Err(Panic)
    else
      var next := NextPeriod(s.sequence, company);
      var key, previous := PeriodKey(company, next), PeriodKey(company, if next > 1 then next - 1 else 0);
      if key in s.periods then Err(PeriodAlreadyExists)
      else if next > 1 && previous in s.periods && !s.periods[previous].closed then Err(PeriodAlreadyExists)
      else if next >= U32_MAX then Err(Panic)
      else Ok(s.(periods := s.periods[key := Period(e.ledger, 0, e.now, false, 0)],
                 sequence := s.sequence[company := next + 1]))
  }

  function ClosePeriod(s: Books, e: Env, company: nat, id: nat, registry: Option<Company>): Result<Books> {
    var key := PeriodKey(company, id);
    if !Authorised(s, e, registry) then Err(Panic)
    else if key !in s.periods then Err(PeriodNotFound)
    else if s.periods[key].closed then Err(PeriodClosed)
    else Ok(s.(periods := s.periods[key := s.periods[key].(closed := true, endLedger := e.ledger)]))
  }

  // ------------------------------------------------------------------ one payment

  /** `verified`: the employee has a commitment and the verifier accepts the proof against it. */
  datatype Request = Request(
    company: nat, employee: Address, amount: int, nullifier: Digest, period: nat,
    registry: Option<Company>, verified: bool)

  function PowerOfTen(n: nat): nat { if n == 0 then 1 else 10 * PowerOfTen(n - 1) }

  function SaturatingSub(x: nat, y: nat): nat { if x < y then 0 else x - y }

  /** The state of the period a payment is made in. */
  function PeriodFault(s: Books, e: Env, key: PeriodKey): Option<Fault> {
    if !s.config.initialized || e.paused then Some(Panic)
    else if key !in s.periods then Some(PeriodNotFound)
    else if s.periods[key].closed then Some(PeriodClosed)
    else if SaturatingSub(e.now, s.periods[key].createdAt) > MAX_PROOF_AGE then Some(ProofExpired)
    else None
  }

  function ReuseFault(s: Books, q: Request): Option<Fault> {
    if q.nullifier in s.nullifiers then Some(ProofAlreadyUsed)
    else if PaymentKey(q.employee, q.period) in s.payments then Some(AlreadyPaid)
    else None
  }

  /** Authorisations, proof, allowlist and the decimals guard. */
  function TermsFault(config: Config, e: Env, q: Request): Option<Fault> {
    if q.registry.None? || q.registry.value.admin !in e.auth || q.registry.value.treasury !in e.auth then Some(Panic)
    else if q.amount < 0 || !q.verified || !config.allowed then Some(Panic)
    else if config.decimals == 0 then Some(AssetDecimalsMissing)
    else if q.amount > 0 && q.amount < PowerOfTen(config.decimals) / 1_000_000_000 then Some(AssetDecimalsMismatch)
    else None
  }

  function Or(first: Option<Fault>, second: Option<Fault>): Option<Fault> {
    if first.Some? then first else second
  }

  /** The first check of `execute_payment` that fails. */
  function PaymentFault(s: Books, e: Env, q: Request): Option<Fault> {
    Or(PeriodFault(s, e, PeriodKey(q.company, q.period)), Or(ReuseFault(s, q), TermsFault(s.config, e, q)))
  }

  function TotalPaid(s: Books, company: nat): int { if company in s.totals then s.totals[company] else 0 }

  function RecordOf(e: Env, q: Request): Payment { Payment(q.company, q.employee, q.nullifier, e.now, q.period) }

  /** What a payment writes, given the balances after its transfer. */
  function Book(s: Books, e: Env, q: Request, moved: Balances): Books
    requires PeriodKey(q.company, q.period) in s.periods
  {
    var key := PeriodKey(q.company, q.period);
    s.(payments := s.payments[PaymentKey(q.employee, q.period) := RecordOf(e, q)],
       nullifiers := s.nullifiers + {q.nullifier},
       periods := s.periods[key := s.periods[key].(payments := s.periods[key].payments + 1)],
       totals := s.totals[q.company := TotalPaid(s, q.company) + q.amount],
       balances := moved)
  }

  /** `execute_payment`. */
  function Pay(s: Books, e: Env, q: Request): Result<Books> {
    var fault := PaymentFault(s, e, q);
    if fault.Some? then Err(fault.value)
    else
      var moved := Transfer(s.balances, q.registry.value.treasury, q.employee, q.amount);
      if || moved.None?
         || s.periods[PeriodKey(q.company, q.period)].payments >= U32_MAX
         || !InI128(TotalPaid(s, q.company) + q.amount)
      then Err(Panic)
      else Ok(Book(s, e, q, moved.value))
  }

  // ------------------------------------------------------------------ batches

  /** Parallel vectors; of the three proof vectors only the lengths matter here. */
  datatype Batch = Batch(
    company: nat, employees: seq<Address>, amounts: seq<int>, proofs: (nat, nat, nat), nullifiers: seq<Digest>,
    period: nat, registry: Option<Company>, verified: seq<bool>)

  predicate LengthsMatch(q: Batch) {
    var n := |q.employees|;
    (|q.amounts|, q.proofs, |q.nullifiers|) == (n, (n, n, n), n)
  }

  function RequestAt(q: Batch, i: nat): Request
    requires LengthsMatch(q) && i < |q.employees|
  {
    Request(q.company, q.employees[i], q.amounts[i], q.nullifiers[i], q.period, q.registry,
            i < |q.verified| && q.verified[i])
  }

  /** The first n payments of a batch, one after another. */
  function Fold(s: Books, e: Env, q: Batch, n: nat): Result<Books>
    requires LengthsMatch(q) && n <= |q.employees|
  {
    if n == 0 then Ok(s)
    else
      var before := Fold(s, e, q, n - 1);
      if before.Err? then before else Pay(before.value, e, RequestAt(q, n - 1))
  }

  /** `execute_batch_payroll`. */
  function PayBatch(s: Books, e: Env, q: Batch): Result<Books> {
    if !LengthsMatch(q) then Err(ArrayLengthMismatch)
    else if q.employees == [] then Err(EmptyBatch)
    else Fold(s, e, q, |q.employees|)
  }

  // ------------------------------------------------------------------ runs of the contract

  datatype Call =
    /** Initialization, the allowlist and the decimals, which cannot exceed 18. */
    | ConfigureCall(config: Config)
    | CreateCall(company: nat, registry: Option<Company>)
    | CloseCall(company: nat, id: nat, registry: Option<Company>)
    | PayCall(q: Request)
    | BatchCall(batch: Batch)
    /** Anyone moving tokens outside the contract. */
    | TokenCall(from: Address, to: Address, amount: int)

  datatype Event = Event(env: Env, call: Call)

  function Configure(s: Books, config: Config): Result<Books> {
    if config.decimals > 18 || (s.config.initialized && !config.initialized) then Err(Panic)
    else Ok(s.(config := config))
  }

  function MoveTokens(s: Books, e: Env, from: Address, to: Address, amount: int): Result<Books> {
    var moved := Transfer(s.balances, from, to, amount);
    if from !in e.auth || moved.None? then Err(Panic) else Ok(s.(balances := moved.value))
  }

  function Try(s: Books, ev: Event): Result<Books> {
    match ev.call
    case ConfigureCall(config) => Configure(s, config)
    case CreateCall(company, registry) => CreatePeriod(s, ev.env, company, registry)
    case CloseCall(company, id, registry) => ClosePeriod(s, ev.env, company, id, registry)
    case PayCall(q) => Pay(s, ev.env, q)
    case BatchCall(q) => PayBatch(s, ev.env, q)
    case TokenCall(from, to, amount) => MoveTokens(s, ev.env, from, to, amount)
  }

  /** What is stored after a call: a fault leaves the books as they were. */
  function After(s: Books, outcome: Result<Books>): Books { if outcome.Ok? then outcome.value else s }

  function Step(s: Books, ev: Event): Books { After(s, Try(s, ev)) }

  function Run(s: Books, events: seq<Event>): Books {
    if events == [] then s else Step(Run(s, events[..|events| - 1]), events[|events| - 1])
  }
}
