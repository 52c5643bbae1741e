/**
 When a batch of payments succeeds, and what it leaves: a closed form for the loop of single
 payments.
 */
module PaymentBatch {
  import opened Common
  import opened Token
  import opened PaymentBooks
  import opened PaymentAcceptance

  // ------------------------------------------------------------------ the conditions

  /** The first n nullifiers and employees are pairwise distinct, and unused so far. */
  ghost predicate Fresh(s: Books, q: Batch, n: nat)
    requires LengthsMatch(q) && n <= |q.employees|
  {
    && (forall i :: 0 <= i < n ==> q.nullifiers[i] !in s.nullifiers)
    && (forall i :: 0 <= i < n ==> PaymentKey(q.employees[i], q.period) !in s.payments)
    && (forall i, j :: 0 <= i < j < n ==> q.nullifiers[i] != q.nullifiers[j])
    && (forall i, j :: 0 <= i < j < n ==> q.employees[i] != q.employees[j])
  }

  ghost predicate Payable(s: Books, e: Env, q: Batch, n: nat)
    requires LengthsMatch(q) && n <= |q.employees|
  {
    forall i :: 0 <= i < n ==> TermsFault(s.config, e, RequestAt(q, i)).None?
  }

  function Home(q: Batch): PeriodKey { PeriodKey(q.company, q.period) }

  /** The series of transfers, out of the treasury the registry names. */
  function Transfers(s: Books, q: Batch, n: nat): Option<Balances>
    requires LengthsMatch(q) && n <= |q.employees|
  {
    if n == 0 then Some(s.balances)
    else if q.registry.None? then None
    else PayAll(s.balances, q.registry.value.treasury, q.employees[..n], q.amounts[..n])
  }

  /** The counter and the running total stay within their types. */
  ghost predicate Room(s: Books, q: Batch, n: nat)
    requires LengthsMatch(q) && 0 < n <= |q.employees| && Home(q) in s.periods
  {
    s.periods[Home(q)].payments + n <= U32_MAX && TotalPaid(s, q.company) + Total(q.amounts[..n]) <= I128_MAX
  }

  /** What the first n payments need, the transfers still taken as a series. */
  ghost predicate Proceeds(s: Books, e: Env, q: Batch, n: nat)
    requires LengthsMatch(q) && 0 < n <= |q.employees|
  {
    && PeriodFault(s, e, Home(q)).None?
    && Fresh(s, q, n)
    && Payable(s, e, q, n)
    && Transfers(s, q, n).Some?
    && Room(s, q, n)
  }

  /** The treasury can afford every payment in its turn, on the balance it has before the batch. */
  predicate Funded(s: Books, q: Batch)
    requires LengthsMatch(q)
  {
    q.registry.Some? && Affordable(s.balances, q.registry.value.treasury, q.employees, q.amounts)
  }

  /** Everything a batch needs, stated about the fields of the books before it. */
  ghost predicate Accepted(s: Books, e: Env, q: Batch) {
    && |q.amounts| == |q.employees| && |q.nullifiers| == |q.employees|
    && q.proofs == (|q.employees|, |q.employees|, |q.employees|) && |q.employees| >= 1
    && s.config.initialized && !e.paused && PeriodOpen(s, e, q.company, q.period)
    && Fresh(s, q, |q.employees|)
    && (forall i :: 0 <= i < |q.employees| ==>
          TermsMet(s, e, q.registry, q.amounts[i], i < |q.verified| && q.verified[i]))
    && Funded(s, q)
    && s.periods[PeriodKey(q.company, q.period)].payments + |q.employees| <= 4_294_967_295
    && TotalPaid(s, q.company) + Total(q.amounts) <= 0x7FFF_FFFF_FFFF_FFFF_FFFF_FFFF_FFFF_FFFF
  }

  lemma PayableIff(s: Books, e: Env, q: Batch)
    requires LengthsMatch(q) && s.config.decimals <= 18
    ensures Payable(s, e, q, |q.employees|) <==>
      forall i :: 0 <= i < |q.employees| ==>
        TermsMet(s, e, q.registry, q.amounts[i], i < |q.verified| && q.verified[i])
  {
    forall i | 0 <= i < |q.employees|
      ensures TermsFault(s.config, e, RequestAt(q, i)).None? <==>
        TermsMet(s, e, q.registry, q.amounts[i], i < |q.verified| && q.verified[i])
    {
      TermsMetIff(s, e, RequestAt(q, i));
    }
  }

  lemma FundedIff(s: Books, q: Batch)
    requires LengthsMatch(q) && q.employees != []
    ensures Funded(s, q) <==> Transfers(s, q, |q.employees|).Some?
  {
    var n := |q.employees|;
    assert q.employees[..n] == q.employees && q.amounts[..n] == q.amounts;
    if q.registry.Some? {
      PayAllIff(s.balances, q.registry.value.treasury, q.employees, q.amounts);
    }
  }

  lemma AcceptedProceeds(s: Books, e: Env, q: Batch)
    requires LengthsMatch(q) && q.employees != [] && s.config.decimals <= 18
    ensures Accepted(s, e, q) <==> Proceeds(s, e, q, |q.employees|)
  {
    PeriodOpenIff(s, e, q.company, q.period);
    PayableIff(s, e, q);
    FundedIff(s, q);
    assert q.amounts[..|q.employees|] == q.amounts;
  }

  // ------------------------------------------------------------------ the result

  ghost function Spent(q: Batch, n: nat): set<Digest>
    requires LengthsMatch(q) && n <= |q.employees|
  {
    set i | 0 <= i < n :: q.nullifiers[i]
  }

  predicate Holds(payments: map<PaymentKey, Payment>, p: Payment) {
    var k := PaymentKey(p.employee, p.period);
    k in payments && payments[k] == p
  }

  /** The payments afterwards: the old ones, and one for each of the first n employees. */
  ghost predicate Recorded(before: map<PaymentKey, Payment>, after: map<PaymentKey, Payment>, e: Env, q: Batch, n: nat)
    requires LengthsMatch(q) && n <= |q.employees|
  {
    && (forall k :: k in after <==> k in before || (k.period == q.period && k.employee in q.employees[..n]))
    && (forall k :: k in before ==> k in after && after[k] == before[k])
    && (forall i :: 0 <= i < n ==> Holds(after, RecordOf(e, RequestAt(q, i))))
  }

  /** The other books afterwards. */
  ghost predicate Posted(s: Books, t: Books, q: Batch, n: nat)
    requires LengthsMatch(q) && 0 < n <= |q.employees| && Home(q) in s.periods
  {
    && t.config == s.config && t.sequence == s.sequence
    && t.nullifiers == s.nullifiers + Spent(q, n)
    && t.periods == s.periods[Home(q) := s.periods[Home(q)].(payments := s.periods[Home(q)].payments + n)]
    && t.totals == s.totals[q.company := TotalPaid(s, q.company) + Total(q.amounts[..n])]
    && Some(t.balances) == Transfers(s, q, n)
  }

  // ------------------------------------------------------------------ one more payment

  lemma FreshMore(s: Books, q: Batch, n: nat)
    requires LengthsMatch(q) && n < |q.employees|
    ensures Fresh(s, q, n + 1) <==>
      && Fresh(s, q, n)
      && q.nullifiers[n] !in s.nullifiers + Spent(q, n)
      && PaymentKey(q.employees[n], q.period) !in s.payments && q.employees[n] !in q.employees[..n]
  {
    if Fresh(s, q, n) && q.nullifiers[n] !in s.nullifiers + Spent(q, n) {
      assert forall i :: 0 <= i < n ==> q.nullifiers[i] in Spent(q, n);
    }
    assert forall i :: 0 <= i < n ==> q.employees[i] == q.employees[..n][i];
  }

  lemma TransfersMore(s: Books, q: Batch, n: nat)
    requires LengthsMatch(q) && n < |q.employees| && q.registry.Some?
    ensures var before := Transfers(s, q, n);
      Transfers(s, q, n + 1) ==
        if before.None? then None else Transfer(before.value, q.registry.value.treasury, q.employees[n], q.amounts[n])
  {
    assert q.employees[..n + 1][..n] == q.employees[..n] && q.amounts[..n + 1][..n] == q.amounts[..n];
    if n == 0 {
      assert PayAll(s.balances, q.registry.value.treasury, q.employees[..0], q.amounts[..0]) == Some(s.balances);
    }
  }

  /** The books between two payments of a batch. */
  ghost predicate Between(s: Books, t: Books, e: Env, q: Batch, n: nat)
    requires LengthsMatch(q) && n <= |q.employees|
  {
    if n == 0 then t == s else Proceeds(s, e, q, n) && Recorded(s.payments, t.payments, e, q, n) && Posted(s, t, q, n)
  }

  lemma SamePeriod(s: Books, t: Books, e: Env, q: Batch, n: nat)
    requires LengthsMatch(q) && n <= |q.employees| && Between(s, t, e, q, n)
    ensures PeriodFault(t, e, Home(q)) == PeriodFault(s, e, Home(q)) && t.config == s.config
  {}

  lemma SameReuse(s: Books, t: Books, e: Env, q: Batch, n: nat)
    requires LengthsMatch(q) && n < |q.employees| && Between(s, t, e, q, n)
    ensures ReuseFault(t, RequestAt(q, n)).None? <==> Fresh(s, q, n + 1)
  {
    FreshMore(s, q, n);
  }

  lemma SameTerms(s: Books, e: Env, q: Batch, n: nat)
    requires LengthsMatch(q) && n < |q.employees|
    ensures Payable(s, e, q, n + 1) <==> Payable(s, e, q, n) && TermsFault(s.config, e, RequestAt(q, n)).None?
  {}

  lemma SameRoom(s: Books, t: Books, e: Env, q: Batch, n: nat)
    requires LengthsMatch(q) && n < |q.employees| && Between(s, t, e, q, n)
    requires Home(q) in s.periods && InI128(TotalPaid(s, q.company)) && q.amounts[n] >= 0
    ensures Home(q) in t.periods
    ensures t.periods[Home(q)].payments < U32_MAX && InI128(TotalPaid(t, q.company) + q.amounts[n]) <==> Room(s, q, n + 1)
  {
    assert q.amounts[..n + 1][..n] == q.amounts[..n];
    assert AllNonNegative(q.amounts[..n]) by {
      forall i | 0 <= i < n
        ensures q.amounts[i] >= 0
      {
        assert TermsFault(s.config, e, RequestAt(q, i)).None?;
      }
    }
    TotalBounds(q.amounts[..n]);
  }

  /** One more payment succeeds exactly when the conditions extend to it. */
  lemma PayMore(s: Books, t: Books, e: Env, q: Batch, n: nat)
    requires LengthsMatch(q) && n < |q.employees| && Between(s, t, e, q, n) && InI128(TotalPaid(s, q.company))
    ensures Pay(t, e, RequestAt(q, n)).Ok? <==> Proceeds(s, e, q, n + 1)
  {
    SamePeriod(s, t, e, q, n);
    SameReuse(s, t, e, q, n);
    SameTerms(s, e, q, n);
    if PaymentFault(t, e, RequestAt(q, n)).None? {
      SameRoom(s, t, e, q, n);
      TransfersMore(s, q, n);
    }
  }

  lemma RecordMore(before: map<PaymentKey, Payment>, after: map<PaymentKey, Payment>, e: Env, q: Batch, n: nat)
    requires LengthsMatch(q) && n < |q.employees| && Recorded(before, after, e, q, n)
    requires PaymentKey(q.employees[n], q.period) !in after
    ensures var p := RecordOf(e, RequestAt(q, n));
      Recorded(before, after[PaymentKey(p.employee, p.period) := p], e, q, n + 1)
  {
    assert q.employees[..n + 1] == q.employees[..n] + [q.employees[n]];
    assert forall i :: 0 <= i < n ==> Holds(after, RecordOf(e, RequestAt(q, i)));
  }

  lemma BookMore(s: Books, t: Books, e: Env, q: Batch, n: nat, moved: Balances)
    requires LengthsMatch(q) && n < |q.employees| && Home(q) in s.periods && Home(q) in t.periods
    requires if n == 0 then t == s else Posted(s, t, q, n)
    requires Transfers(s, q, n + 1) == Some(moved)
    ensures Posted(s, Book(t, e, RequestAt(q, n), moved), q, n + 1)
  {
    assert Spent(q, n + 1) == Spent(q, n) + {q.nullifiers[n]};
    assert q.amounts[..n + 1][..n] == q.amounts[..n];
  }

  lemma BetweenMore(s: Books, t: Books, e: Env, q: Batch, n: nat)
    requires LengthsMatch(q) && n < |q.employees| && Between(s, t, e, q, n)
    requires Proceeds(s, e, q, n + 1) && Pay(t, e, RequestAt(q, n)).Ok?
    ensures Between(s, Pay(t, e, RequestAt(q, n)).value, e, q, n + 1)
  {
    var r := RequestAt(q, n);
    TransfersMore(s, q, n);
    var moved := Transfer(t.balances, q.registry.value.treasury, r.employee, r.amount).value;
    assert Pay(t, e, r).value == Book(t, e, r, moved);
    BookMore(s, t, e, q, n, moved);
    RecordMore(s.payments, t.payments, e, q, n);
  }

  /** The conditions for more payments include those for fewer. */
  lemma ProceedsFewer(s: Books, e: Env, q: Batch, n: nat)
    requires LengthsMatch(q) && 0 < n < |q.employees| && Proceeds(s, e, q, n + 1)
    ensures Proceeds(s, e, q, n)
  {
    FreshMore(s, q, n);
    SameTerms(s, e, q, n);
    TransfersMore(s, q, n);
    assert q.amounts[..n + 1][..n] == q.amounts[..n];
  }

  lemma {:induction false} FoldClosed(s: Books, e: Env, q: Batch, n: nat)
    requires LengthsMatch(q) && n <= |q.employees| && InI128(TotalPaid(s, q.company))
    ensures n > 0 ==> (Fold(s, e, q, n).Ok? <==> Proceeds(s, e, q, n))
    ensures Fold(s, e, q, n).Ok? ==> Between(s, Fold(s, e, q, n).value, e, q, n)
  {
    if n > 0 {
      FoldClosed(s, e, q, n - 1);
      var before := Fold(s, e, q, n - 1);
      if before.Ok? {
        PayMore(s, before.value, e, q, n - 1);
        if Proceeds(s, e, q, n) {
          BetweenMore(s, before.value, e, q, n - 1);
        }
      } else if Proceeds(s, e, q, n) {
        ProceedsFewer(s, e, q, n - 1);
      }
    }
  }

  // ------------------------------------------------------------------ the theorems

  /** The batch loop succeeds exactly when conditions on the books before it hold. */
  lemma BatchSucceedsIff(s: Books, e: Env, q: Batch)
    requires InI128(TotalPaid(s, q.company)) && s.config.decimals <= 18
    ensures PayBatch(s, e, q).Ok? <==> Accepted(s, e, q)
  {
    if LengthsMatch(q) && q.employees != [] {
      FoldClosed(s, e, q, |q.employees|);
      AcceptedProceeds(s, e, q);
    }
  }

  /** For a treasury that is not on its own payroll, funded means to hold the batch total. */
  lemma FundedTotal(s: Books, q: Batch)
    requires LengthsMatch(q) && q.registry.Some? && q.registry.value.treasury !in q.employees
    ensures Funded(s, q) <==> AllNonNegative(q.amounts) && Total(q.amounts) <= Of(s.balances, q.registry.value.treasury)
  {
    AffordableTotal(s.balances, q.registry.value.treasury, q.employees, q.amounts);
  }

  /** And then it leaves exactly the closed form. */
  lemma BatchLeaves(s: Books, t: Books, e: Env, q: Batch)
    requires InI128(TotalPaid(s, q.company)) && PayBatch(s, e, q) == Ok(t)
    ensures Home(q) in s.periods && Recorded(s.payments, t.payments, e, q, |q.employees|) && Posted(s, t, q, |q.employees|)
  {
    FoldClosed(s, e, q, |q.employees|);
  }

  /** No explicit duplicate check exists, yet a successful batch has none and reuses nothing. */
  lemma BatchDistinct(s: Books, e: Env, q: Batch)
    requires InI128(TotalPaid(s, q.company)) && PayBatch(s, e, q).Ok?
    ensures Distinct(q.employees) && Distinct(q.nullifiers)
    ensures forall i :: 0 <= i < |q.employees| ==>
      q.nullifiers[i] !in s.nullifiers && PaymentKey(q.employees[i], q.period) !in s.payments
  {
    FoldClosed(s, e, q, |q.employees|);
  }
}
