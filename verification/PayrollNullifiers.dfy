/**
 The payroll contract together with the commitment contract's nullifiers
 (contracts/salary_commitment/src/lib.rs:434-451): a batch records one for each of its payments, made of
 the payment's position and nothing else (contracts/payroll/src/lib.rs:2569-2585).
 */
module PayrollNullifiers {
  import opened Common
  import opened PayrollLedger
  import opened PayrollTreasury

  /** The nullifier of the payment at a position. */
  function Nullifier(i: nat): Digest { Digest([i % 256, i / 256 % 256] + seq(30, _ => 0)) }

  /** `record_nullifier` refuses one already used. */
  function Record(used: set<Digest>, n: Digest): Option<set<Digest>> { if n in used then None else Some(used + {n}) }

  /** The nullifiers of the first n payments, one after another. */
  function RecordAll(used: set<Digest>, n: nat): Option<set<Digest>> {
    if n == 0 then Some(used)
    else
      var before := RecordAll(used, n - 1);
      if before.None? then None else Record(before.value, Nullifier(n - 1))
  }

  /** The payroll ledger and the used nullifiers of its commitment contract. */
  datatype Joint = Joint(ledger: Ledger, used: set<Digest>)

  /** A call of the payroll contract, or someone else's nullifier. */
  datatype JointEvent = OnPayroll(event: Event) | OnNullifier(nullifier: Digest)

  predicate Executes(ev: JointEvent) { ev.OnPayroll? && ev.event.call.OnRun? && ev.event.call.run.ExecuteCall? }

  function JointTry(j: Joint, ev: JointEvent): Option<Joint> {
    match ev
    case OnNullifier(n) =>
      var used := Record(j.used, n);
      if used.None? then None else Some(j.(used := used.value))
    case OnPayroll(event) =>
      var ledger := Try(j.ledger, event);
      var used := if Executes(ev) then RecordAll(j.used, event.call.run.b.proofs) else Some(j.used);
      if ledger.None? || used.None? then None else Some(Joint(ledger.value, used.value))
  }

  function JointStep(j: Joint, ev: JointEvent): Joint { if JointTry(j, ev).Some? then JointTry(j, ev).value else j }

  function JointRun(j: Joint, events: seq<JointEvent>): Joint {
    if events == [] then j else JointStep(JointRun(j, events[..|events| - 1]), events[|events| - 1])
  }

  // ------------------------------------------------------------------ one batch

  lemma NullifiersDiffer(i: nat, k: nat)
    requires i < k < 0x10000
    ensures Nullifier(i) != Nullifier(k)
  {
    var x, y := Nullifier(i).bytes, Nullifier(k).bytes;
    assert x[0] == i % 256 && x[1] == i / 256 % 256 && y[0] == k % 256 && y[1] == k / 256 % 256;
    assert i / 256 < 256 && k / 256 < 256;
    assert i == 256 * (i / 256) + i % 256 && k == 256 * (k / 256) + k % 256;
  }

  ghost predicate Unused(used: set<Digest>, n: nat) { forall i :: 0 <= i < n ==> Nullifier(i) !in used }

  ghost function FirstNullifiers(n: nat): set<Digest> { set i | 0 <= i < n :: Nullifier(i) }

  /** Recording succeeds exactly when none of them has been used. */
  lemma {:induction false} RecordAllIff(used: set<Digest>, n: nat)
    requires n <= 0x10000
    ensures RecordAll(used, n).Some? <==> Unused(used, n)
    ensures RecordAll(used, n).Some? ==> RecordAll(used, n).value == used + FirstNullifiers(n)
  {
    if n > 0 {
      RecordAllIff(used, n - 1);
      assert FirstNullifiers(n) == FirstNullifiers(n - 1) + {Nullifier(n - 1)};
      assert Nullifier(n - 1) !in FirstNullifiers(n - 1) by {
        forall i | 0 <= i < n - 1
          ensures Nullifier(i) != Nullifier(n - 1)
        {
          NullifiersDiffer(i, n - 1);
        }
      }
    }
  }

  /** A batch goes through exactly when its checks pass and its positions are unused. */
  lemma BatchGoesThroughIff(j: Joint, e: Env, b: Batch, oracle: seq<bool>)
    ensures JointTry(j, OnPayroll(Event(e, OnRun(ExecuteCall(b, oracle))))).Some? <==>
      ExecuteAccepted(j.ledger, e, b, oracle) && Unused(j.used, b.proofs)
  {
    AcceptedBatchPays(j.ledger, e, b, oracle);
    if ExecuteAccepted(j.ledger, e, b, oracle) {
      RecordAllIff(j.used, b.proofs);
    }
  }

  // ------------------------------------------------------------------ no second batch

  lemma {:induction false} RecordedGrows(used: set<Digest>, n: nat)
    requires RecordAll(used, n).Some?
    ensures used <= RecordAll(used, n).value
    ensures n > 0 ==> Nullifier(0) !in used && Nullifier(0) in RecordAll(used, n).value
  {
    if n > 0 {
      RecordedGrows(used, n - 1);
    }
  }

  lemma {:induction false} UsedForever(j: Joint, events: seq<JointEvent>)
    ensures j.used <= JointRun(j, events).used
  {
    if events != [] {
      var before := JointRun(j, events[..|events| - 1]);
      var ev := events[|events| - 1];
      UsedForever(j, events[..|events| - 1]);
      if JointTry(before, ev).Some? && Executes(ev) {
        RecordedGrows(before.used, ev.event.call.run.b.proofs);
      }
    }
  }

  lemma AcceptedNotEmpty(s: Ledger, ev: Event)
    requires ev.call.OnRun? && ev.call.run.ExecuteCall? && Try(s, ev).Some?
    ensures ev.call.run.b.proofs > 0
  {}

  /** Every batch needs the nullifier of position 0, and takes it. */
  lemma BatchTakesFirst(j: Joint, ev: JointEvent)
    requires Executes(ev) && JointTry(j, ev).Some?
    ensures Nullifier(0) !in j.used && Nullifier(0) in JointTry(j, ev).value.used
  {
    AcceptedNotEmpty(j.ledger, ev.event);
    RecordedGrows(j.used, ev.event.call.run.b.proofs);
  }

  /** After one batch every other is refused, whatever happens in between. */
  lemma SecondBatchRefused(j: Joint, first: JointEvent, events: seq<JointEvent>, second: JointEvent)
    requires Executes(first) && Executes(second) && JointTry(j, first).Some?
    ensures JointTry(JointRun(JointTry(j, first).value, events), second) == None
  {
    var t := JointTry(j, first).value;
    BatchTakesFirst(j, first);
    UsedForever(t, events);
    if JointTry(JointRun(t, events), second).Some? {
      BatchTakesFirst(JointRun(t, events), second);
    }
  }

  /** How many batches a run of calls executes. */
  function Batches(j: Joint, events: seq<JointEvent>): nat {
    if events == [] then 0
    else
      var before, ev := events[..|events| - 1], events[|events| - 1];
      Batches(j, before) + if Executes(ev) && JointTry(JointRun(j, before), ev).Some? then 1 else 0
  }

  /** At most one batch is ever executed against one commitment contract. */
  lemma {:induction false} AtMostOneBatch(j: Joint, events: seq<JointEvent>)
    ensures Batches(j, events) <= 1
    ensures Batches(j, events) == 1 ==> Nullifier(0) in JointRun(j, events).used
  {
    if events != [] {
      var before, ev := events[..|events| - 1], events[|events| - 1];
      AtMostOneBatch(j, before);
      UsedForever(JointRun(j, before), [ev]);
      OneMore(j, before, ev);
      if Executes(ev) && JointTry(JointRun(j, before), ev).Some? {
        BatchTakesFirst(JointRun(j, before), ev);
      }
    }
  }

  lemma OneMore(j: Joint, before: seq<JointEvent>, ev: JointEvent)
    ensures JointRun(JointRun(j, before), [ev]) == JointStep(JointRun(j, before), ev)
  {
    var one := [ev];
    assert one[..0] == [] && JointRun(JointRun(j, before), one[..0]) == JointRun(j, before);
  }
}
