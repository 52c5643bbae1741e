/**
 The payroll contract's storage and what each entry point does to it
 (contracts/payroll/src/lib.rs). An entry point either succeeds with a new ledger or aborts,
 and an abort discards every write of the call, so each is a function to an optional ledger.
 */
module PayrollLedger {
  import opened Common
  import opened Token

  const MAX_BATCH: nat := 50

  datatype RunState =
    | Draft | Validating | ProofPending | ReadyToSubmit | Submitted | Confirming
    | Completed | Failed | Cancelled | ReconciliationRequired

  datatype Reconciliation = Unreconciled | Reconciled | ReconciliationFailed

  datatype CompanyState = Active | Paused | Archived | Incomplete

  datatype Addresses = Addresses(admin: Address, token: Address, treasury: Address, owner: Address)

  datatype PendingRun = PendingRun(
    id: nat, preparedAt: nat, admin: Address, total: int, employees: nat, draft: Digest, nonce: Digest)

  datatype PayrollRun = PayrollRun(
    id: nat, executedAt: nat, admin: Address, total: int, employees: nat, draft: Digest, nonce: Digest,
    status: Reconciliation, metadata: Digest)

  datatype CancelledRun = CancelledRun(
    id: nat, cancelledAt: nat, cancelledBy: Address, reason: string, employees: nat, total: int, draft: Digest)

  datatype EmergencyRequest = EmergencyRequest(amount: int, recipient: Address, requestedAt: nat)

  /** The latest accepted nonce of one employer and how many it has had. */
  datatype NonceSequence = NonceSequence(current: nat, acceptedAt: nat, last: Digest)

  datatype Ledger = Ledger(
    addrs: Option<Addresses>,
    treasuryOwner: Option<Address>,
    companyState: Option<CompanyState>,
    allowed: map<Address, bool>,
    supported: Option<seq<Address>>,
    counter: nat,
    runNonce: map<Digest, nat>,
    sequences: map<Address, NonceSequence>,
    pending: map<nat, PendingRun>,
    executed: map<nat, PayrollRun>,
    cancelled: map<nat, CancelledRun>,
    runState: map<nat, RunState>,
    pendingCount: nat,
    locked: map<Address, int>,
    emergency: Option<EmergencyRequest>,
    committed: set<Digest>,
    depositIds: set<Digest>,
    balances: Balances)

  function Genesis(balances: Balances): Ledger {
    Ledger(None, None, None, map[], None, 0, map[], map[], map[], map[], map[], map[], 0, map[], None, {}, {},
           balances)
  }

  // ------------------------------------------------------------------ reading the ledger

  predicate IsAdmin(s: Ledger, e: Env, caller: Address) {
    s.addrs.Some? && caller == s.addrs.value.admin && caller in e.auth
  }

  /** `require_company_active`: an absent state counts as active. */
  predicate CompanyActive(s: Ledger) { s.companyState == None || s.companyState == Some(Active) }

  predicate AssetAllowed(s: Ledger, asset: Address) { asset in s.allowed && s.allowed[asset] }

  function PayoutToken(s: Ledger): Option<Address> {
    if s.addrs.Some? then Some(s.addrs.value.token) else None
  }

  /** `get_supported_assets`. */
  function SupportedAssets(s: Ledger): seq<Address> {
    if s.supported.Some? then s.supported.value
    else if PayoutToken(s).Some? && AssetAllowed(s, PayoutToken(s).value) then [PayoutToken(s).value]
    else []
  }

  function Locked(s: Ledger, asset: Address): int { if asset in s.locked then s.locked[asset] else 0 }

  /** `get_available_treasury_balance`, for the payout token. */
  function Available(s: Ledger): int
    requires s.addrs.Some?
  {
    var d := Of(s.balances, s.addrs.value.treasury) - Locked(s, s.addrs.value.token);
    if InI128(d) then d else 0
  }

  /** `is_allowed_payroll_state_transition_internal`. */
  predicate TransitionAllowed(from: RunState, to: RunState) {
    match from
    case Draft => to in {Validating, Cancelled}
    case Validating => to in {ProofPending, Failed, Cancelled}
    case ProofPending => to in {ReadyToSubmit, Failed, Cancelled}
    case ReadyToSubmit => to in {Submitted, Failed, Cancelled}
    case Submitted => to in {Confirming, Failed, Cancelled}
    case Confirming => to in {Completed, Failed, ReconciliationRequired}
    case Failed => to in {Validating, ProofPending, Cancelled}
    case ReconciliationRequired => to in {Completed, Failed}
    case Completed => false
    case Cancelled => false
  }

  predicate Terminal(state: RunState) { state in {Completed, Cancelled} }

  /** `get_payroll_run_state_internal`; `None` stands for its panic. */
  function CurrentState(s: Ledger, id: nat): Option<RunState> {
    if id in s.runState then Some(s.runState[id])
    else if id in s.executed then
      Some(if s.executed[id].status == Reconciled then Completed else ReconciliationRequired)
    else if id in s.pending then Some(Submitted)
    else None
  }

  /** `nonce_to_u256`: despite its name, the first sixteen bytes, big-endian. */
  function NoncePrefix(nonce: Digest): int { BigEndian(if |nonce.bytes| < 16 then nonce.bytes else nonce.bytes[..16]) }

  function BigEndian(bytes: seq<int>): int {
    if bytes == [] then 0 else 256 * BigEndian(bytes[..|bytes| - 1]) + bytes[|bytes| - 1]
  }

  /** `validate_nonce_monotonicity`. */
  predicate NonceAdvances(s: Ledger, employer: Address, nonce: Digest) {
    employer in s.sequences ==>
      nonce != s.sequences[employer].last && NoncePrefix(nonce) > NoncePrefix(s.sequences[employer].last)
  }

  predicate AllPositive(amounts: seq<int>) { forall i :: 0 <= i < |amounts| ==> amounts[i] > 0 }

  /**
   The batch a caller submits, one proof, amount and employee per payment; `supported` is the answer
   of the storage version check.
   */
  datatype Batch = Batch(
    proofs: nat, amounts: seq<int>, employees: seq<Address>, expected: int, nonce: Digest, draft: Option<Digest>,
    supported: bool)

  /** The checks that preparing and executing a batch have in common. */
  predicate BatchAccepted(s: Ledger, e: Env, b: Batch) {
    && CompanyActive(s) && b.supported
    && |b.amounts| == b.proofs && |b.employees| == b.proofs
    && 0 < b.proofs <= MAX_BATCH
    && b.nonce !in s.runNonce
    && (b.draft.Some? ==> b.draft.value in s.committed)
    && Distinct(b.employees)
    && AllPositive(b.amounts)
    && Total(b.amounts) == b.expected && InI128(b.expected)
    && s.addrs.Some?
    && NonceAdvances(s, s.addrs.value.admin, b.nonce)
    && s.addrs.value.admin in e.auth
    && AssetAllowed(s, s.addrs.value.token)
    && s.counter < U64_MAX
  }

  function DraftOf(b: Batch): Digest { if b.draft.Some? then b.draft.value else ZeroDigest() }

  /** `update_nonce_sequence`. */
  function SequencesWith(sequences: map<Address, NonceSequence>, a: Address, now: nat, nonce: Digest)
    : map<Address, NonceSequence>
  {
    sequences[a := NonceSequence(1 + (if a in sequences then sequences[a].current else 0), now, nonce)]
  }

  /** `derive_run_id`, the nonce index entry and the admin's sequence. */
  function Enroll(s: Ledger, e: Env, nonce: Digest): Ledger
    requires s.addrs.Some?
  {
    s.(counter := s.counter + 1,
       runNonce := s.runNonce[nonce := s.counter + 1],
       sequences := SequencesWith(s.sequences, s.addrs.value.admin, e.now, nonce))
  }

  // ------------------------------------------------------------------ runs

  /** What preparing writes: a pending run, its state, the pending count and the reservation. */
  function Reserve(s: Ledger, e: Env, b: Batch): Ledger
    requires s.addrs.Some?
  {
    var t, token := Enroll(s, e, b.nonce), s.addrs.value.token;
    var run := PendingRun(t.counter, e.now, s.addrs.value.admin, b.expected, b.proofs, DraftOf(b), b.nonce);
    t.(pending := t.pending[t.counter := run],
       runState := t.runState[t.counter := Submitted],
       pendingCount := t.pendingCount + 1,
       locked := t.locked[token := Locked(s, token) + b.expected])
  }

  /** The source does not compare the reservation with the treasury balance, nor ask for unpaused. */
  function Prepare(s: Ledger, e: Env, b: Batch): Option<Ledger> {
    if || !BatchAccepted(s, e, b) || s.pendingCount >= U32_MAX
       || !InI128(Locked(s, s.addrs.value.token) + b.expected)
    then None
    else Some(Reserve(s, e, b))
  }

  /** `saturating_sub(1)`. */
  function SaturatingDecrement(n: nat): nat { if n == 0 then 0 else n - 1 }

  /** What finalizing and cancelling have in common: the run leaves the pending set. */
  function Resolve(s: Ledger, id: nat, state: RunState): Ledger
    requires s.addrs.Some? && id in s.pending
  {
    var token := s.addrs.value.token;
    s.(pending := s.pending - {id},
       runState := s.runState[id := state],
       pendingCount := SaturatingDecrement(s.pendingCount),
       locked := s.locked[token := Locked(s, token) - s.pending[id].total])
  }

  predicate ResolveAccepted(s: Ledger, e: Env, admin: Address, id: nat) {
    && id != U64_MAX && IsAdmin(s, e, admin) && id in s.pending && id !in s.executed
    && InI128(Locked(s, s.addrs.value.token) - s.pending[id].total)
  }

  /** What finalizing writes. The source transfers nothing here. */
  function Settle(s: Ledger, e: Env, id: nat): Ledger
    requires s.addrs.Some? && id in s.pending
  {
    var p, t := s.pending[id], Resolve(s, id, ReconciliationRequired);
    t.(executed := t.executed[id := PayrollRun(
      id, e.now, s.addrs.value.admin, p.total, p.employees, p.draft, p.nonce, Unreconciled, ZeroDigest())])
  }

  /** `expired` is the answer of the approval expiry check. */
  function Finalize(s: Ledger, e: Env, admin: Address, id: nat, expired: bool): Option<Ledger> {
    if e.paused || expired || !ResolveAccepted(s, e, admin, id) then None else Some(Settle(s, e, id))
  }

  /** What cancelling writes. */
  function Withdraw(s: Ledger, e: Env, id: nat, reason: string): Ledger
    requires s.addrs.Some? && id in s.pending
  {
    var p, t := s.pending[id], Resolve(s, id, Cancelled);
    t.(cancelled := t.cancelled[id := CancelledRun(
      id, e.now, s.addrs.value.admin, reason, p.employees, p.total, p.draft)])
  }

  /** Available while the system is paused, as an escape hatch. */
  function Cancel(s: Ledger, e: Env, admin: Address, id: nat, reason: string): Option<Ledger> {
    if reason == "" || !ResolveAccepted(s, e, admin, id) then None else Some(Withdraw(s, e, id, reason))
  }

  /** What executing a batch writes, given the balances after its transfers. */
  function Disburse(s: Ledger, e: Env, b: Batch, paid: Balances): Ledger
    requires s.addrs.Some?
  {
    var t := Enroll(s, e, b.nonce);
    t.(committed := if b.draft.Some? then t.committed - {b.draft.value} else t.committed,
       balances := paid,
       executed := t.executed[t.counter := PayrollRun(
         t.counter, e.now, s.addrs.value.admin, b.expected, b.proofs, DraftOf(b), b.nonce, Unreconciled, ZeroDigest())],
       runState := t.runState[t.counter := ReconciliationRequired])
  }

  /**
   What `batch_process_payroll` checks. `oracle[i]` says whether the commitment and verifier
   contracts let payment i pass; the treasury's authorisation is what the token asks of the payer.
   */
  predicate ExecuteAccepted(s: Ledger, e: Env, b: Batch, oracle: seq<bool>) {
    && BatchAccepted(s, e, b) && !e.paused
    && b.nonce != ZeroDigest() && b.draft != Some(ZeroDigest())
    && Of(s.balances, s.addrs.value.treasury) >= b.expected
    && s.addrs.value.treasury in e.auth
    && (forall i :: 0 <= i < b.proofs ==> Passes(oracle, i))
  }

  /** Any transfer of the series may abort, and with it the whole call. */
  function Execute(s: Ledger, e: Env, b: Batch, oracle: seq<bool>): Option<Ledger> {
    if !ExecuteAccepted(s, e, b, oracle) then None
    else
      var paid := PayAll(s.balances, s.addrs.value.treasury, b.employees, b.amounts);
      if paid.None? then None else Some(Disburse(s, e, b, paid.value))
  }

  predicate Passes(oracle: seq<bool>, i: nat) { i < |oracle| && oracle[i] }

  function StateFor(status: Reconciliation): RunState {
    match status
    case Reconciled => Completed
    case Unreconciled => ReconciliationRequired
    case ReconciliationFailed => Failed
  }

  /** A corrected reconciliation status rewrites the run's record and its state. */
  function Correct(s: Ledger, id: nat, status: Reconciliation): Ledger
    requires id in s.executed
  {
    s.(executed := s.executed[id := s.executed[id].(status := status)], runState := s.runState[id := StateFor(status)])
  }

  function UpdateReconciliation(s: Ledger, e: Env, admin: Address, id: nat, status: Reconciliation): Option<Ledger> {
    if e.paused || !IsAdmin(s, e, admin) || id !in s.executed then None
    else
      var current, next := CurrentState(s, id).value, StateFor(status);
      if current == Completed || (current != next && !TransitionAllowed(current, next)) then None
      else Some(Correct(s, id, status))
  }

  function Transition(s: Ledger, e: Env, admin: Address, id: nat, next: RunState): Option<Ledger> {
    var current := CurrentState(s, id);
    if e.paused || !IsAdmin(s, e, admin) || current.None? || !TransitionAllowed(current.value, next) then None
    else Some(s.(runState := s.runState[id := next]))
  }

  // ------------------------------------------------------------------ configuration

  function Initialize(s: Ledger, a: Addresses): Option<Ledger> {
    if s.addrs.Some? then None
    else Some(s.(addrs := Some(a), allowed := s.allowed[a.token := true], treasuryOwner := Some(a.owner), counter := 0))
  }

  function SetAssetAllowed(s: Ledger, e: Env, asset: Address, allowed: bool): Option<Ledger> {
    if s.addrs.None? || s.addrs.value.admin !in e.auth || s.pendingCount > 0 then None
    else
      var t := s.(allowed := s.allowed[asset := allowed]);
      Some(t.(supported := Some(Relisted(SupportedAssets(t), asset, allowed))))
  }

  /** The list with an asset appended if it is missing, or its first occurrence removed. */
  function Relisted(assets: seq<Address>, asset: Address, allowed: bool): seq<Address> {
    var at := FirstIndexOf(assets, asset);
    if allowed && at == |assets| then assets + [asset]
    else if !allowed && at < |assets| then assets[..at] + assets[at + 1..]
    else assets
  }

  /** The least index of x, or the length. */
  function FirstIndexOf(xs: seq<Address>, x: Address): (at: nat)
    ensures at <= |xs| && (at < |xs| ==> xs[at] == x)
    ensures forall i :: 0 <= i < at ==> xs[i] != x
  {
    if xs == [] || xs[0] == x then 0 else 1 + FirstIndexOf(xs[1..], x)
  }

  /** Role acceptances read the stored proposal, which is an input here. */
  function AcceptAdminRotation(s: Ledger, e: Env, caller: Address, proposal: Option<Address>): Option<Ledger> {
    if s.pendingCount > 0 then None else AcceptAdminHandover(s, e, caller, proposal)
  }

  /** The same effect without the configuration lock. */
  function AcceptAdminHandover(s: Ledger, e: Env, caller: Address, proposal: Option<Address>): Option<Ledger> {
    if e.paused || proposal != Some(caller) || caller !in e.auth || s.addrs.None? then None
    else Some(s.(addrs := Some(s.addrs.value.(admin := caller))))
  }

  function AcceptTreasuryRotation(s: Ledger, e: Env, caller: Address, proposal: Option<Address>): Option<Ledger> {
    if || e.paused || proposal != Some(caller) || caller !in e.auth || s.pendingCount > 0
       || s.treasuryOwner.None? || s.addrs.None?
    then None
    else Some(s.(treasuryOwner := Some(caller), addrs := Some(s.addrs.value.(owner := caller))))
  }

  function SetCompanyState(s: Ledger, e: Env, admin: Address, state: CompanyState): Option<Ledger> {
    if !IsAdmin(s, e, admin) || s.pendingCount > 0 then None else Some(s.(companyState := Some(state)))
  }

  // ------------------------------------------------------------------ drafts and metadata

  /** `commit_draft` and `commit_metadata_hash`, which share one storage key. */
  function Commit(s: Ledger, e: Env, admin: Address, digest: Digest): Option<Ledger> {
    if e.paused || digest == ZeroDigest() || !IsAdmin(s, e, admin) || digest in s.committed then None
    else Some(s.(committed := s.committed + {digest}))
  }

  function Annotate(s: Ledger, id: nat, digest: Digest): Ledger
    requires id in s.executed
  {
    s.(committed := s.committed - {digest}, executed := s.executed[id := s.executed[id].(metadata := digest)])
  }

  function SetRunMetadata(s: Ledger, e: Env, admin: Address, id: nat, digest: Digest): Option<Ledger> {
    if || e.paused || id == U64_MAX || digest == ZeroDigest() || !IsAdmin(s, e, admin)
       || digest !in s.committed || id !in s.executed
    then None
    else Some(Annotate(s, id, digest))
  }

  // ------------------------------------------------------------------ the treasury

  function Deposit(s: Ledger, e: Env, from: Address, amount: int, depositId: Digest): Option<Ledger> {
    if || e.paused || depositId == ZeroDigest() || amount <= 0 || depositId in s.depositIds || s.addrs.None?
       || s.treasuryOwner.None? || from !in e.auth || s.treasuryOwner.value !in e.auth
    then None
    else
      var moved := Transfer(s.balances, from, s.addrs.value.treasury, amount);
      if moved.None? then None
      else Some(s.(depositIds := s.depositIds + {depositId}, balances := moved.value))
  }

  function RequestEmergency(s: Ledger, e: Env, owner: Address, amount: int, recipient: Address): Option<Ledger> {
    if || e.paused || amount <= 0 || s.treasuryOwner != Some(owner) || owner !in e.auth || s.emergency.Some?
       || s.addrs.None? || amount > Available(s)
    then None
    else Some(s.(emergency := Some(EmergencyRequest(amount, recipient, e.now))))
  }

  function ApproveEmergency(s: Ledger, e: Env, admin: Address): Option<Ledger> {
    if || e.paused || !IsAdmin(s, e, admin) || s.emergency.None? || s.emergency.value.amount > Available(s)
       || s.addrs.value.treasury !in e.auth
    then None
    else
      var moved := Transfer(s.balances, s.addrs.value.treasury, s.emergency.value.recipient, s.emergency.value.amount);
      if moved.None? then None else Some(s.(emergency := None, balances := moved.value))
  }

  function CancelEmergency(s: Ledger, e: Env, caller: Address): Option<Ledger> {
    if || e.paused || s.addrs.None? || s.treasuryOwner.None? || caller !in e.auth || s.emergency.None?
       || (caller != s.addrs.value.admin && caller != s.treasuryOwner.value)
    then None
    else Some(s.(emergency := None))
  }

  // ------------------------------------------------------------------ runs of the contract

  datatype Call = OnRun(run: RunCall) | OnRecord(record: RecordCall) | OnSettings(settings: SettingsCall)
    | OnTreasury(treasury: TreasuryCall)

  datatype RunCall =
    | PrepareCall(b: Batch)
    | FinalizeCall(admin: Address, id: nat, expired: bool)
    | CancelCall(admin: Address, id: nat, reason: string)
    | ExecuteCall(b: Batch, oracle: seq<bool>)

  datatype RecordCall =
    | ReconcileCall(admin: Address, id: nat, status: Reconciliation)
    | TransitionCall(admin: Address, id: nat, next: RunState)
    | SetMetadataCall(admin: Address, id: nat, digest: Digest)
    | CommitCall(admin: Address, digest: Digest)

  datatype SettingsCall =
    | InitializeCall(a: Addresses)
    | SetAssetCall(asset: Address, allowed: bool)
    | AcceptRotationCall(caller: Address, proposal: Option<Address>)
    | AcceptHandoverCall(caller: Address, proposal: Option<Address>)
    | AcceptTreasuryCall(caller: Address, proposal: Option<Address>)
    | SetCompanyCall(admin: Address, state: CompanyState)

  datatype TreasuryCall =
    | DepositCall(from: Address, amount: int, depositId: Digest)
    | RequestEmergencyCall(owner: Address, amount: int, recipient: Address)
    | ApproveEmergencyCall(admin: Address)
    | CancelEmergencyCall(caller: Address)
    /** Anyone moving tokens outside the contract. */
    | TokenCall(from: Address, to: Address, amount: int)

  datatype Event = Event(env: Env, call: Call)

  function TryRun(s: Ledger, e: Env, c: RunCall): Option<Ledger> {
    match c
    case PrepareCall(b) => Prepare(s, e, b)
    case FinalizeCall(admin, id, expired) => Finalize(s, e, admin, id, expired)
    case CancelCall(admin, id, reason) => Cancel(s, e, admin, id, reason)
    case ExecuteCall(b, oracle) => Execute(s, e, b, oracle)
  }

  function TryRecord(s: Ledger, e: Env, c: RecordCall): Option<Ledger> {
    match c
    case ReconcileCall(admin, id, status) => UpdateReconciliation(s, e, admin, id, status)
    case TransitionCall(admin, id, next) => Transition(s, e, admin, id, next)
    case SetMetadataCall(admin, id, digest) => SetRunMetadata(s, e, admin, id, digest)
    case CommitCall(admin, digest) => Commit(s, e, admin, digest)
  }

  function TrySettings(s: Ledger, e: Env, c: SettingsCall): Option<Ledger> {
    match c
    case InitializeCall(a) => Initialize(s, a)
    case SetAssetCall(asset, allowed) => SetAssetAllowed(s, e, asset, allowed)
    case AcceptRotationCall(caller, proposal) => AcceptAdminRotation(s, e, caller, proposal)
    case AcceptHandoverCall(caller, proposal) => AcceptAdminHandover(s, e, caller, proposal)
    case AcceptTreasuryCall(caller, proposal) => AcceptTreasuryRotation(s, e, caller, proposal)
    case SetCompanyCall(admin, state) => SetCompanyState(s, e, admin, state)
  }

  function TryTreasury(s: Ledger, e: Env, c: TreasuryCall): Option<Ledger> {
    match c
    case DepositCall(from, amount, depositId) => Deposit(s, e, from, amount, depositId)
    case RequestEmergencyCall(owner, amount, recipient) => RequestEmergency(s, e, owner, amount, recipient)
    case ApproveEmergencyCall(admin) => ApproveEmergency(s, e, admin)
    case CancelEmergencyCall(caller) => CancelEmergency(s, e, caller)
    case TokenCall(from, to, amount) => MoveTokens(s, e, from, to, amount)
  }

  function MoveTokens(s: Ledger, e: Env, from: Address, to: Address, amount: int): Option<Ledger> {
    var moved := Transfer(s.balances, from, to, amount);
    if from !in e.auth || moved.None? then None else Some(s.(balances := moved.value))
  }

  function Try(s: Ledger, ev: Event): Option<Ledger> {
    match ev.call
    case OnRun(c) => TryRun(s, ev.env, c)
    case OnRecord(c) => TryRecord(s, ev.env, c)
    case OnSettings(c) => TrySettings(s, ev.env, c)
    case OnTreasury(c) => TryTreasury(s, ev.env, c)
  }

  /** What is stored after a call: an abort leaves the ledger as it was. */
  function After(s: Ledger, outcome: Option<Ledger>): Ledger { if outcome.Some? then outcome.value else s }

  /** One invocation. */
  function Step(s: Ledger, ev: Event): Ledger { After(s, Try(s, ev)) }

  function Run(s: Ledger, events: seq<Event>): Ledger {
    if events == [] then s else Step(Run(s, events[..|events| - 1]), events[|events| - 1])
  }
}
