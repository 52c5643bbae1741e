/** Concrete runs that show where three broader claims about the payroll contract fail. */
module PayrollWitnesses {
  import opened Common
  import opened Token
  import opened PayrollLedger
  import opened PayrollInvariant
  import opened PayrollPreservation
  import opened PayrollNonces
  import opened PayrollTreasury

  const ADMIN: Address := 1
  const TOKEN: Address := 2
  const TREASURY: Address := 3
  const OWNER: Address := 4
  const SUCCESSOR: Address := 5
  const EMPLOYEE: Address := 6

  const ROLES := Addresses(ADMIN, TOKEN, TREASURY, OWNER)
  const HOST := Env({ADMIN, SUCCESSOR}, false, 0, 0)

  function Nonce(): Digest { Digest(seq(32, _ => 1)) }

  function OnePayment(): Batch { Batch(1, [5], [EMPLOYEE], 5, Nonce(), None, true) }

  /** A contract with an empty treasury, initialized. */
  function Started(): Ledger { Initialize(Genesis(map[]), ROLES).value }

  /** The same with one run prepared. */
  function Prepared(): Ledger { Reserve(Started(), HOST, OnePayment()) }

  lemma StartedReachable()
    ensures Reachable(Started())
  {
    assert Run(Genesis(map[]), []) == Genesis(map[]);
    ReachableTry(Genesis(map[]), Event(HOST, OnSettings(InitializeCall(ROLES))));
  }

  lemma PreparedReachable()
    ensures Reachable(Prepared())
  {
    StartedReachable();
    var b := OnePayment();
    assert Total([5]) == 5;
    assert BatchAccepted(Started(), HOST, b);
    assert Prepare(Started(), HOST, b) == Some(Prepared());
    ReachableTry(Started(), Event(HOST, OnRun(PrepareCall(b))));
  }

  /** Preparation reserves what the treasury does not hold. */
  lemma OverCommitted()
    ensures Reachable(Prepared()) && !Covered(Prepared())
  {
    PreparedReachable();
    StartedReachable();
    assert Total([5]) == 5;
    PrepareCoversIff(Started(), Prepared(), HOST, OnePayment());
    assert Totals(map[]) == map[];
  }

  /** A handover is not locked: accepting one replaces the admin while a run is pending. */
  lemma AdminChangesWhilePending()
    ensures Reachable(Prepared()) && Prepared().pending.Keys == {1} && Prepared().addrs == Some(ROLES)
    ensures var t := AcceptAdminHandover(Prepared(), HOST, SUCCESSOR, Some(SUCCESSOR));
      t == Some(Prepared().(addrs := Some(ROLES.(admin := SUCCESSOR))))
  {
    PreparedReachable();
  }

  /** The same run marked Cancelled, a terminal state, while it is pending. */
  function Marked(): Ledger { Prepared().(runState := map[1 := Cancelled]) }

  lemma MarkedReachable()
    ensures Reachable(Marked())
  {
    PreparedReachable();
    var s, mark := Prepared(), Event(HOST, OnRecord(TransitionCall(ADMIN, 1, Cancelled)));
    assert s.runState == map[1 := Submitted];
    assert s.runState[1 := Cancelled] == map[1 := Cancelled];
    assert Transition(s, HOST, ADMIN, 1, Cancelled) == Some(Marked());
    ReachableTry(s, mark);
  }

  /** It can still be finalized. */
  lemma CancelledThenFinalized()
    ensures Reachable(Marked()) && Marked().runState == map[1 := Cancelled]
    ensures Finalize(Marked(), HOST, ADMIN, 1, false).Some?
    ensures Finalize(Marked(), HOST, ADMIN, 1, false).value.runState == map[1 := ReconciliationRequired]
  {
    MarkedReachable();
    var s := Marked();
    assert ResolveAccepted(s, HOST, ADMIN, 1);
    assert s.runState[1 := ReconciliationRequired] == map[1 := ReconciliationRequired];
  }

  /** The nonce of the prepared run with its last byte raised. */
  function LargerNonce(): Digest { Digest(seq(31, _ => 1) + [2]) }

  /** It is larger as a 256-bit number, and refused all the same. */
  lemma LargerNonceRefused(b: Batch, e: Env)
    requires b.nonce == LargerNonce()
    ensures Reachable(Prepared()) && Prepared().sequences.Keys == {ADMIN}
    ensures Prepared().sequences[ADMIN].last == Nonce() && BigEndian(LargerNonce().bytes) > BigEndian(Nonce().bytes)
    ensures Prepare(Prepared(), e, b) == None
  {
    PreparedReachable();
    var x, y := Nonce().bytes, LargerNonce().bytes;
    assert x[..31] == y[..31] && x[..16] == y[..16];
    assert Prepared().addrs == Some(ROLES);
    assert NoncePrefix(LargerNonce()) == NoncePrefix(Nonce());
  }
}
