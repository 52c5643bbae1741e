/**
 The payout token as its callers see it: a balance map whose transfer aborts on a negative
 amount or on insufficient funds (the SEP-41 token interface).
 */
module Token {
  import opened Common

  type Balances = map<Address, nat>

  function Of(b: Balances, a: Address): nat { if a in b then b[a] else 0 }

  function Transfer(b: Balances, from: Address, to: Address, amount: int): Option<Balances> {
    if amount < 0 || Of(b, from) < amount then None
    else
      var spent := b[from := Of(b, from) - amount];
      Some(spent[to := Of(spent, to) + amount])
  }

  /** One payment after another from the same account. */
  function PayAll(b: Balances, from: Address, tos: seq<Address>, amounts: seq<int>): Option<Balances>
    requires |tos| == |amounts|
  {
    if tos == [] then Some(b)
    else
      var n := |tos| - 1;
      var before := PayAll(b, from, tos[..n], amounts[..n]);
      if before.None? then None else Transfer(before.value, from, tos[n], amounts[n])
  }

  function Total(amounts: seq<int>): int {
    if amounts == [] then 0 else Total(amounts[..|amounts| - 1]) + amounts[|amounts| - 1]
  }

  /** What one account receives in such a series. */
  function Received(a: Address, tos: seq<Address>, amounts: seq<int>): int
    requires |tos| == |amounts|
  {
    if tos == [] then 0
    else
      var n := |tos| - 1;
      Received(a, tos[..n], amounts[..n]) + if tos[n] == a then amounts[n] else 0
  }

  predicate Distinct<T(==)>(xs: seq<T>) { forall i, j :: 0 <= i < j < |xs| ==> xs[i] != xs[j] }

  ghost function Supply(b: Balances): int { Sum(b) }

  lemma TransferConserves(b: Balances, from: Address, to: Address, amount: int)
    requires Transfer(b, from, to, amount).Some?
    ensures Supply(Transfer(b, from, to, amount).value) == Supply(b)
  {
    var spent := b[from := Of(b, from) - amount];
    SumUpdate(b, from, Of(b, from) - amount);
    SumUpdate(spent, to, Of(spent, to) + amount);
  }

  predicate AllNonNegative(amounts: seq<int>) { forall i :: 0 <= i < |amounts| ==> amounts[i] >= 0 }

  lemma {:induction false} TotalBounds(amounts: seq<int>)
    requires AllNonNegative(amounts)
    ensures 0 <= Total(amounts)
  {
    if amounts != [] {
      TotalBounds(amounts[..|amounts| - 1]);
    }
  }

  /** What a series does: every account gains what it receives, the payer loses the total. */
  lemma {:induction false} PayAllEffect(b: Balances, from: Address, tos: seq<Address>, amounts: seq<int>)
    requires |tos| == |amounts| && PayAll(b, from, tos, amounts).Some?
    ensures var after := PayAll(b, from, tos, amounts).value;
      && Supply(after) == Supply(b)
      && forall a :: Of(after, a) == Of(b, a) + Received(a, tos, amounts) - if a == from then Total(amounts) else 0
  {
    if tos != [] {
      var n := |tos| - 1;
      PayAllEffect(b, from, tos[..n], amounts[..n]);
      TransferConserves(PayAll(b, from, tos[..n], amounts[..n]).value, from, tos[n], amounts[n]);
    }
  }

  /** The payer can make each payment in its turn, counting what came back to it before. */
  predicate Affordable(b: Balances, from: Address, tos: seq<Address>, amounts: seq<int>)
    requires |tos| == |amounts|
  {
    forall n :: 0 <= n < |tos| ==>
      amounts[n] >= 0 && Total(amounts[..n]) + amounts[n] <= Of(b, from) + Received(from, tos[..n], amounts[..n])
  }

  /** A series succeeds exactly when it is affordable on the balance before it. */
  lemma {:induction false} PayAllIff(b: Balances, from: Address, tos: seq<Address>, amounts: seq<int>)
    requires |tos| == |amounts|
    ensures PayAll(b, from, tos, amounts).Some? <==> Affordable(b, from, tos, amounts)
  {
    if tos != [] {
      var n := |tos| - 1;
      PayAllIff(b, from, tos[..n], amounts[..n]);
      AffordableSnoc(b, from, tos, amounts);
      if PayAll(b, from, tos[..n], amounts[..n]).Some? {
        PayAllEffect(b, from, tos[..n], amounts[..n]);
      }
    }
  }

  lemma AffordableSnoc(b: Balances, from: Address, tos: seq<Address>, amounts: seq<int>)
    requires |tos| == |amounts| && tos != []
    ensures var n := |tos| - 1;
      Affordable(b, from, tos, amounts) <==>
        && Affordable(b, from, tos[..n], amounts[..n])
        && amounts[n] >= 0 && Total(amounts[..n]) + amounts[n] <= Of(b, from) + Received(from, tos[..n], amounts[..n])
  {
    var n := |tos| - 1;
    assert forall m :: 0 <= m < n ==> tos[..n][..m] == tos[..m] && amounts[..n][..m] == amounts[..m];
  }

  /** When the payer is none of the payees, that is to cover the total. */
  lemma {:induction false} AffordableTotal(b: Balances, from: Address, tos: seq<Address>, amounts: seq<int>)
    requires |tos| == |amounts| && from !in tos
    ensures Affordable(b, from, tos, amounts) <==> AllNonNegative(amounts) && Total(amounts) <= Of(b, from)
  {
    if tos != [] {
      var n := |tos| - 1;
      AffordableTotal(b, from, tos[..n], amounts[..n]);
      AffordableSnoc(b, from, tos, amounts);
      ReceivedNothing(from, tos[..n], amounts[..n]);
      assert AllNonNegative(amounts) <==> AllNonNegative(amounts[..n]) && amounts[n] >= 0;
    }
  }

  lemma {:induction false} ReceivedNothing(a: Address, tos: seq<Address>, amounts: seq<int>)
    requires |tos| == |amounts| && a !in tos
    ensures Received(a, tos, amounts) == 0
  {
    if tos != [] {
      ReceivedNothing(a, tos[..|tos| - 1], amounts[..|tos| - 1]);
    }
  }

  /**
   A series that the payer can cover in full never runs out on the way; every account gains what
   it receives, the payer loses the total, and no token appears or vanishes.
   */
  lemma {:induction false} PayAllFunded(b: Balances, from: Address, tos: seq<Address>, amounts: seq<int>)
    requires |tos| == |amounts| && AllNonNegative(amounts) && Total(amounts) <= Of(b, from)
    ensures PayAll(b, from, tos, amounts).Some?
    ensures var after := PayAll(b, from, tos, amounts).value;
      && Supply(after) == Supply(b)
      && forall a :: Of(after, a) == Of(b, a) + Received(a, tos, amounts) - if a == from then Total(amounts) else 0
  {
    if tos != [] {
      var n := |tos| - 1;
      TotalBounds(amounts[..n]);
      PayAllFunded(b, from, tos[..n], amounts[..n]);
      ReceivedBounds(from, tos[..n], amounts[..n]);
    }
    PayAllEffect(b, from, tos, amounts);
  }

  lemma {:induction false} ReceivedBounds(a: Address, tos: seq<Address>, amounts: seq<int>)
    requires |tos| == |amounts| && AllNonNegative(amounts)
    ensures 0 <= Received(a, tos, amounts)
  {
    if tos != [] {
      ReceivedBounds(a, tos[..|tos| - 1], amounts[..|tos| - 1]);
    }
  }

  /** With distinct payees, each receives exactly its own amount and the others nothing. */
  lemma {:induction false} ReceivedDistinct(tos: seq<Address>, amounts: seq<int>)
    requires |tos| == |amounts| && Distinct(tos)
    ensures forall i :: 0 <= i < |tos| ==> Received(tos[i], tos, amounts) == amounts[i]
    ensures forall a :: a !in tos ==> Received(a, tos, amounts) == 0
  {
    if tos != [] {
      var n := |tos| - 1;
      ReceivedDistinct(tos[..n], amounts[..n]);
      assert forall i :: 0 <= i < n ==> tos[i] == tos[..n][i] && amounts[i] == amounts[..n][i];
      assert tos[n] !in tos[..n];
    }
  }
}
