/** What every entry point of the payroll contract keeps. */
module PayrollInvariant {
  import opened Common
  import opened Token
  import opened PayrollLedger

  // ------------------------------------------------------------------ the records that must agree

  ghost function Totals(pending: map<nat, PendingRun>): map<nat, int> { map id | id in pending :: pending[id].total }

  /** The sum of the totals of all pending runs. */
  ghost function Reserved(pending: map<nat, PendingRun>): int { Sum(Totals(pending)) }

  /** Every id handed out is in exactly one of three sets, and no other id is in any. */
  ghost predicate Partition(counter: nat, p: set<nat>, x: set<nat>, c: set<nat>) {
    && (forall id: nat :: 1 <= id <= counter <==> id in p || id in x || id in c)
    && p !! x && p !! c && x !! c
  }

  /** The pending counter and the reservation agree with the pending runs themselves. */
  ghost predicate Accounted(token: Address, pending: map<nat, PendingRun>, count: nat, locked: map<Address, int>) {
    && count == |pending|
    && (forall id :: id in pending ==> pending[id].total > 0)
    && locked.Keys <= {token}
    && (if token in locked then locked[token] else 0) == Reserved(pending) <= I128_MAX
  }

  ghost predicate Named(runNonce: map<Digest, nat>, id: nat) { exists n :: n in runNonce && runNonce[n] == id }

  /** The nonce index is an injection of the used nonces onto the ids 1 to the counter. */
  ghost predicate Indexed(counter: nat, runNonce: map<Digest, nat>) {
    && (forall n :: n in runNonce ==> 1 <= runNonce[n] <= counter)
    && (forall n, m :: n in runNonce && m in runNonce && runNonce[n] == runNonce[m] ==> n == m)
    && (forall id: nat :: 1 <= id <= counter ==> Named(runNonce, id))
  }

  /** The index sends the nonce stored in each record to that record's id. */
  ghost predicate PendingIndexed(runNonce: map<Digest, nat>, pending: map<nat, PendingRun>) {
    forall id :: id in pending ==> pending[id].nonce in runNonce && runNonce[pending[id].nonce] == id
  }

  ghost predicate ExecutedIndexed(runNonce: map<Digest, nat>, executed: map<nat, PayrollRun>) {
    forall id :: id in executed ==> executed[id].nonce in runNonce && runNonce[executed[id].nonce] == id
  }

  ghost function Counts(sequences: map<Address, NonceSequence>): map<Address, int> {
    map a | a in sequences :: sequences[a].current
  }

  /** The list names each allowed asset once and no other asset. */
  ghost predicate Listed(allowed: map<Address, bool>, list: seq<Address>) {
    && Distinct(list)
    && forall a :: a in list <==> a in allowed && allowed[a]
  }

  /** Cancelled runs are in state Cancelled, reconciled runs in state Completed. */
  ghost predicate StatesAgree(executed: map<nat, PayrollRun>, cancelled: set<nat>, state: map<nat, RunState>) {
    && (forall id :: id in cancelled ==> id in state && state[id] == Cancelled)
    && (forall id :: id in executed && executed[id].status == Reconciled ==> id in state && state[id] == Completed)
  }

  /** Before initialization nothing has happened. */
  ghost predicate Untouched(s: Ledger) {
    s.counter == 0 && s.pendingCount == 0 && s.pending == map[] && s.locked == map[]
    && s.treasuryOwner == None && s.supported == None
  }

  /** The three record sets and the state table. */
  ghost predicate Records(counter: nat, pending: map<nat, PendingRun>, executed: map<nat, PayrollRun>,
                          cancelled: map<nat, CancelledRun>, state: map<nat, RunState>) {
    && Partition(counter, pending.Keys, executed.Keys, cancelled.Keys)
    && state.Keys == pending.Keys + executed.Keys + cancelled.Keys
    && StatesAgree(executed, cancelled.Keys, state)
  }

  /** The nonce index, the records it points to and the employers' sequence numbers. */
  ghost predicate Nonces(counter: nat, runNonce: map<Digest, nat>, pending: map<nat, PendingRun>,
                         executed: map<nat, PayrollRun>, sequences: map<Address, NonceSequence>) {
    && Indexed(counter, runNonce)
    && PendingIndexed(runNonce, pending)
    && ExecutedIndexed(runNonce, executed)
    && Sum(Counts(sequences)) == counter
  }

  /** While anything is pending the company is active and the payout token is allowed. */
  ghost predicate Configured(s: Ledger, a: Addresses) {
    && Accounted(a.token, s.pending, s.pendingCount, s.locked)
    && s.treasuryOwner == Some(a.owner)
    && (s.pending != map[] ==> CompanyActive(s) && AssetAllowed(s, a.token))
  }

  ghost predicate RecordsOf(s: Ledger) { Records(s.counter, s.pending, s.executed, s.cancelled, s.runState) }

  ghost predicate NoncesOf(s: Ledger) { Nonces(s.counter, s.runNonce, s.pending, s.executed, s.sequences) }

  ghost predicate AssetsOf(s: Ledger) { Listed(s.allowed, SupportedAssets(s)) }

  ghost predicate Inv(s: Ledger) {
    match s.addrs
    case None => RecordsOf(s) && NoncesOf(s) && AssetsOf(s) && Untouched(s)
    case Some(a) => RecordsOf(s) && NoncesOf(s) && AssetsOf(s) && Configured(s, a)
  }

  // ------------------------------------------------------------------ one record set at a time

  lemma ReservedAdd(pending: map<nat, PendingRun>, id: nat, run: PendingRun)
    requires id !in pending
    ensures Reserved(pending[id := run]) == Reserved(pending) + run.total
  {
    assert Totals(pending[id := run]) == Totals(pending)[id := run.total];
    SumUpdate(Totals(pending), id, run.total);
  }

  lemma ReservedRemove(pending: map<nat, PendingRun>, id: nat)
    requires id in pending
    ensures Reserved(pending - {id}) == Reserved(pending) - pending[id].total
  {
    assert Totals(pending - {id}) == Totals(pending) - {id};
    SumRemove(Totals(pending), id);
  }

  lemma AccountedAdd(token: Address, pending: map<nat, PendingRun>, count: nat, locked: map<Address, int>,
                     id: nat, run: PendingRun, reserved: int)
    requires Accounted(token, pending, count, locked) && id !in pending && run.total > 0
    requires reserved == run.total + (if token in locked then locked[token] else 0) <= I128_MAX
    ensures Accounted(token, pending[id := run], count + 1, locked[token := reserved])
  {
    ReservedAdd(pending, id, run);
    var more, held := pending[id := run], locked[token := reserved];
    assert |more| == count + 1 by {
      assert more.Keys == pending.Keys + {id};
    }
    assert forall k :: k in more ==> more[k].total > 0;
    assert held.Keys <= {token};
  }

  lemma AccountedRemove(token: Address, pending: map<nat, PendingRun>, count: nat, locked: map<Address, int>, id: nat)
    requires Accounted(token, pending, count, locked) && id in pending
    ensures count > 0 && pending[id].total <= Reserved(pending)
    ensures token in locked
    ensures Accounted(token, pending - {id}, count - 1, locked[token := locked[token] - pending[id].total])
  {
    ReservedRemove(pending, id);
    SumNonNegative(Totals(pending));
    assert Totals(pending)[id] > 0;
    assert (pending - {id}).Keys == pending.Keys - {id};
  }

  lemma PartitionAdd(counter: nat, p: set<nat>, x: set<nat>, c: set<nat>)
    requires Partition(counter, p, x, c)
    ensures counter + 1 !in p + x + c
    ensures Partition(counter + 1, p + {counter + 1}, x, c)
    ensures Partition(counter + 1, p, x + {counter + 1}, c)
  {}

  lemma PartitionMove(counter: nat, p: set<nat>, x: set<nat>, c: set<nat>, id: nat)
    requires Partition(counter, p, x, c) && id in p
    ensures id !in x && id !in c
    ensures Partition(counter, p - {id}, x + {id}, c)
    ensures Partition(counter, p - {id}, x, c + {id})
  {}

  lemma IndexedAdd(counter: nat, runNonce: map<Digest, nat>, nonce: Digest)
    requires Indexed(counter, runNonce) && nonce !in runNonce
    ensures Indexed(counter + 1, runNonce[nonce := counter + 1])
  {
    var next := runNonce[nonce := counter + 1];
    forall id: nat | 1 <= id <= counter + 1
      ensures Named(next, id)
    {
      if id <= counter {
        assert Named(runNonce, id);
        var n :| n in runNonce && runNonce[n] == id;
        assert n in next && next[n] == id;
      } else {
        assert nonce in next && next[nonce] == id;
      }
    }
  }

  lemma CountsAdd(sequences: map<Address, NonceSequence>, a: Address, next: NonceSequence)
    requires next.current == 1 + if a in sequences then sequences[a].current else 0
    ensures Sum(Counts(sequences[a := next])) == Sum(Counts(sequences)) + 1
  {
    assert Counts(sequences[a := next]) == Counts(sequences)[a := next.current];
    SumUpdate(Counts(sequences), a, next.current);
  }

  lemma {:induction false} TotalPositive(amounts: seq<int>)
    requires AllPositive(amounts)
    ensures amounts != [] ==> Total(amounts) > 0
  {
    if |amounts| > 1 {
      TotalPositive(amounts[..|amounts| - 1]);
    }
  }

  lemma RecordsAdd(counter: nat, pending: map<nat, PendingRun>, executed: map<nat, PayrollRun>,
                   cancelled: map<nat, CancelledRun>, state: map<nat, RunState>, p: PendingRun, x: PayrollRun, st: RunState)
    requires Records(counter, pending, executed, cancelled, state) && x.status == Unreconciled
    ensures counter + 1 !in pending
    ensures Records(counter + 1, pending[counter + 1 := p], executed, cancelled, state[counter + 1 := st])
    ensures Records(counter + 1, pending, executed[counter + 1 := x], cancelled, state[counter + 1 := st])
  {
    PartitionAdd(counter, pending.Keys, executed.Keys, cancelled.Keys);
    assert pending[counter + 1 := p].Keys == pending.Keys + {counter + 1};
    assert executed[counter + 1 := x].Keys == executed.Keys + {counter + 1};
  }

  lemma RecordsMove(counter: nat, pending: map<nat, PendingRun>, executed: map<nat, PayrollRun>,
                    cancelled: map<nat, CancelledRun>, state: map<nat, RunState>, id: nat, x: PayrollRun, c: CancelledRun)
    requires Records(counter, pending, executed, cancelled, state) && x.status == Unreconciled && id in pending
    ensures Records(counter, pending - {id}, executed[id := x], cancelled, state[id := ReconciliationRequired])
    ensures Records(counter, pending - {id}, executed, cancelled[id := c], state[id := Cancelled])
  {
    PartitionMove(counter, pending.Keys, executed.Keys, cancelled.Keys, id);
    assert executed[id := x].Keys == executed.Keys + {id} && cancelled[id := c].Keys == cancelled.Keys + {id};
    assert (pending - {id}).Keys == pending.Keys - {id};
  }

  lemma NoncesAdd(counter: nat, runNonce: map<Digest, nat>, pending: map<nat, PendingRun>, executed: map<nat, PayrollRun>,
                  sequences: map<Address, NonceSequence>, nonce: Digest, a: Address, next: NonceSequence,
                  p: PendingRun, x: PayrollRun)
    requires Nonces(counter, runNonce, pending, executed, sequences) && nonce !in runNonce
    requires next.current == 1 + if a in sequences then sequences[a].current else 0
    requires p.nonce == nonce && x.nonce == nonce
    ensures Nonces(counter + 1, runNonce[nonce := counter + 1], pending[counter + 1 := p], executed, sequences[a := next])
    ensures Nonces(counter + 1, runNonce[nonce := counter + 1], pending, executed[counter + 1 := x], sequences[a := next])
  {
    IndexedAdd(counter, runNonce, nonce);
    CountsAdd(sequences, a, next);
  }

  lemma NoncesMove(counter: nat, runNonce: map<Digest, nat>, pending: map<nat, PendingRun>, executed: map<nat, PayrollRun>,
                   sequences: map<Address, NonceSequence>, id: nat, x: PayrollRun)
    requires Nonces(counter, runNonce, pending, executed, sequences) && id in pending && x.nonce == pending[id].nonce
    ensures Nonces(counter, runNonce, pending - {id}, executed[id := x], sequences)
    ensures Nonces(counter, runNonce, pending - {id}, executed, sequences)
  {}

  /** Rewriting an executed run in place, and its state with it. */
  lemma RecordsRewrite(counter: nat, pending: map<nat, PendingRun>, executed: map<nat, PayrollRun>,
                       cancelled: map<nat, CancelledRun>, state: map<nat, RunState>, id: nat, x: PayrollRun, st: RunState)
    requires Records(counter, pending, executed, cancelled, state) && id in executed
    requires x.status == Reconciled ==> st == Completed
    ensures Records(counter, pending, executed[id := x], cancelled, state[id := st])
  {
    assert executed[id := x].Keys == executed.Keys && state[id := st].Keys == state.Keys;
  }

  lemma NoncesRewrite(counter: nat, runNonce: map<Digest, nat>, pending: map<nat, PendingRun>,
                      executed: map<nat, PayrollRun>, sequences: map<Address, NonceSequence>, id: nat, x: PayrollRun)
    requires Nonces(counter, runNonce, pending, executed, sequences) && id in executed && x.nonce == executed[id].nonce
    ensures Nonces(counter, runNonce, pending, executed[id := x], sequences)
  {}

  /** Moving one run's state along the transition table. */
  lemma RecordsRestate(counter: nat, pending: map<nat, PendingRun>, executed: map<nat, PayrollRun>,
                       cancelled: map<nat, CancelledRun>, state: map<nat, RunState>, id: nat, st: RunState)
    requires Records(counter, pending, executed, cancelled, state) && id in state && !Terminal(state[id])
    ensures Records(counter, pending, executed, cancelled, state[id := st])
  {
    assert state[id := st].Keys == state.Keys;
  }
}
