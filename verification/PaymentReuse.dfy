/** When a payment is refused because its nullifier or its employee has been used before. */
module PaymentReuse {
  import opened Common
  import opened PaymentBooks
  import opened PaymentInvariant

  /** Some company, whichever, has paid this employee for this period number. */
  ghost predicate PaidBySome(s: Books, employee: Address, period: nat) {
    exists company: nat :: PaymentKey(employee, period) in PaidIn(s.payments, PeriodKey(company, period))
  }

  /**
   Payments are keyed without the company, so a request fails as already paid exactly when its period
   is open and fresh, its nullifier unused, and any company at all has paid the employee for a period
   of that number.
   */
  lemma AlreadyPaidIff(s: Books, e: Env, q: Request)
    requires Inv(s)
    ensures Pay(s, e, q) == Err(AlreadyPaid) <==>
      && PeriodFault(s, e, PeriodKey(q.company, q.period)).None?
      && q.nullifier !in s.nullifiers
      && PaidBySome(s, q.employee, q.period)
  {
    KeyedBySome(s, q.employee, q.period);
  }

  lemma KeyedBySome(s: Books, employee: Address, period: nat)
    requires Filed(s.periods, s.payments)
    ensures PaidBySome(s, employee, period) <==> PaymentKey(employee, period) in s.payments
  {
    var k := PaymentKey(employee, period);
    if k in s.payments {
      assert k in PaidIn(s.payments, PeriodKey(s.payments[k].company, period));
    }
  }

  // ------------------------------------------------------------------ for ever

  predicate Used(s: Books, q: Request) {
    q.nullifier in s.nullifiers || PaymentKey(q.employee, q.period) in s.payments
  }

  lemma UsedForever(s: Books, events: seq<Event>, q: Request)
    requires Used(s, q)
    ensures Used(Run(s, events), q)
  {
    RunExtends(s, events);
  }

  /** A spent nullifier never pays again, nor is an employee paid twice for one period number. */
  lemma NeverPaidTwice(s: Books, events: seq<Event>, e: Env, q: Request)
    requires Used(s, q)
    ensures Pay(Run(s, events), e, q).Err?
  {
    UsedForever(s, events, q);
  }

  lemma {:induction false} UsedFailsFold(s: Books, e: Env, q: Batch, n: nat, i: nat)
    requires LengthsMatch(q) && i < n <= |q.employees| && Used(s, RequestAt(q, i))
    ensures Fold(s, e, q, n).Err?
  {
    if i + 1 < n {
      UsedFailsFold(s, e, q, n - 1, i);
    } else if Fold(s, e, q, i).Ok? {
      FoldExtends(s, e, q, i);
      assert Used(Fold(s, e, q, i).value, RequestAt(q, i));
    }
  }

  /** Nor does a batch that contains such a payment succeed. */
  lemma BatchNeverPaysTwice(s: Books, events: seq<Event>, e: Env, q: Batch, i: nat)
    requires LengthsMatch(q) && i < |q.employees| && Used(s, RequestAt(q, i))
    ensures PayBatch(Run(s, events), e, q).Err?
  {
    UsedForever(s, events, RequestAt(q, i));
    UsedFailsFold(Run(s, events), e, q, |q.employees|, i);
  }

  // ------------------------------------------------------------------ two companies, one employee

  const HOST := Env({1, 2, 3, 4}, false, 0, 0)
  const FIRST := Company(1, 3)
  const SECOND := Company(2, 4)

  function Nullifier(byte: int): Digest { Digest(seq(32, _ => byte)) }

  function PaidByFirst(): Request { Request(0, 9, 5, Nullifier(1), 1, Some(FIRST), true) }

  function AskedOfSecond(): Request { Request(1, 9, 5, Nullifier(2), 1, Some(SECOND), true) }

  /** Both companies have opened their first period and hold funds. */
  function BothOpen(): Books {
    Books(Config(true, true, 7), map[0 := 2, 1 := 2],
          map[PeriodKey(0, 1) := Period(0, 0, 0, false, 0), PeriodKey(1, 1) := Period(0, 0, 0, false, 0)],
          map[], {}, map[], map[3 := 10, 4 := 10])
  }

  lemma BothOpenReachable()
    ensures exists events :: Run(Opening(map[3 := 10, 4 := 10]), events) == BothOpen()
  {
    var g := Opening(map[3 := 10, 4 := 10]);
    var configure := Event(HOST, ConfigureCall(Config(true, true, 7)));
    var open0 := Event(HOST, CreateCall(0, Some(FIRST)));
    var open1 := Event(HOST, CreateCall(1, Some(SECOND)));
    var events := [configure, open0, open1];
    assert events[..2][..1][..0] == [] && events[..2][..1] == [configure] && events[..2] == [configure, open0];
    var a := Step(g, configure);
    var b := Step(a, open0);
    var p := Period(0, 0, 0, false, 0);
    assert b.periods == map[PeriodKey(0, 1) := p] && b.sequence == map[0 := 2];
    assert Step(b, open1).periods == BothOpen().periods && Step(b, open1).sequence == BothOpen().sequence;
    assert Run(g, []) == g;
    assert [configure][..0] == [] && Run(g, [configure]) == a;
    assert [configure, open0][..1] == [configure];
    assert Run(g, [configure, open0]) == b;
    assert Run(g, events) == Step(b, open1);
  }

  /** The first company's payment succeeds; the second's, in its own open period, is refused as already paid. */
  lemma SecondCompanyRefused()
    ensures exists events :: Run(Opening(map[3 := 10, 4 := 10]), events) == BothOpen()
    ensures Pay(BothOpen(), HOST, PaidByFirst()).Ok?
    ensures Pay(BothOpen(), HOST, AskedOfSecond()).Ok?
    ensures Pay(Pay(BothOpen(), HOST, PaidByFirst()).value, HOST, AskedOfSecond()) == Err(AlreadyPaid)
  {
    BothOpenReachable();
    assert PowerOfTen(7) == 10_000_000;
    assert Nullifier(1).bytes[0] != Nullifier(2).bytes[0];
  }
}
