/** The history of accepted run nonces, and what the nonce index and the sequences record of it. */
module PayrollNonces {
  import opened Common
  import opened PayrollLedger
  import opened PayrollInvariant
  import opened PayrollPreservation
  import opened PayrollRuns

  datatype Acceptance = Acceptance(admin: Address, nonce: Digest)

  /** The nonce one invocation gets accepted, and the admin under whom. */
  function Accepted(s: Ledger, ev: Event): Option<Acceptance> {
    if Try(s, ev).Some? && s.addrs.Some? && ev.call.OnRun? && (ev.call.run.PrepareCall? || ev.call.run.ExecuteCall?)
    then Some(Acceptance(s.addrs.value.admin, ev.call.run.b.nonce))
    else None
  }

  /** All acceptances of a run, in order. */
  function History(s: Ledger, events: seq<Event>): seq<Acceptance> {
    if events == [] then []
    else
      var before := events[..|events| - 1];
      var latest := Accepted(Run(s, before), events[|events| - 1]);
      History(s, before) + if latest.Some? then [latest.value] else []
  }

  /** How many of the acceptances are one employer's. */
  function Times(history: seq<Acceptance>, a: Address): nat {
    if history == [] then 0
    else Times(history[..|history| - 1], a) + if history[|history| - 1].admin == a then 1 else 0
  }

  // ------------------------------------------------------------------ the index

  /** The k-th accepted nonce is indexed as run k, counting from one. */
  ghost predicate Numbered(counter: nat, index: map<Digest, nat>, history: seq<Acceptance>) {
    && |history| == counter
    && forall k :: 0 <= k < |history| ==> history[k].nonce in index && index[history[k].nonce] == k + 1
  }

  /** Sequences count each employer's acceptances and remember a nonce none of its own exceeds. */
  ghost predicate Sequenced(sequences: map<Address, NonceSequence>, history: seq<Acceptance>) {
    && (forall a :: Times(history, a) == if a in sequences then sequences[a].current else 0)
    && forall k :: 0 <= k < |history| ==>
         history[k].admin in sequences && NoncePrefix(history[k].nonce) <= NoncePrefix(sequences[history[k].admin].last)
  }

  ghost predicate Increasing(history: seq<Acceptance>) {
    forall i, j :: 0 <= i < j < |history| && history[i].admin == history[j].admin ==>
      NoncePrefix(history[i].nonce) < NoncePrefix(history[j].nonce)
  }

  /** Counter, index and the admin's sequence advance together. */
  ghost predicate Advanced(s: Ledger, t: Ledger, a: Address, n: Digest) {
    && t.counter == s.counter + 1 && n !in s.runNonce && t.runNonce == s.runNonce[n := t.counter]
    && a in t.sequences && t.sequences == s.sequences[a := t.sequences[a]]
    && t.sequences[a].current == 1 + (if a in s.sequences then s.sequences[a].current else 0)
    && t.sequences[a].last == n && NonceAdvances(s, a, n)
  }

  lemma RunCallNonces(s: Ledger, t: Ledger, e: Env, c: RunCall)
    requires TryRun(s, e, c) == Some(t)
    ensures c.FinalizeCall? || c.CancelCall? ==> SameNonces(s, t)
    ensures (c.PrepareCall? || c.ExecuteCall?) ==> s.addrs.Some? && Advanced(s, t, s.addrs.value.admin, c.b.nonce)
  {}

  ghost predicate SameNonces(s: Ledger, t: Ledger) {
    t.counter == s.counter && t.runNonce == s.runNonce && t.sequences == s.sequences
  }

  lemma RecordCallNonces(s: Ledger, t: Ledger, e: Env, c: RecordCall)
    requires TryRecord(s, e, c) == Some(t)
    ensures SameNonces(s, t)
  {
    RecordCallFrame(s, t, e, c);
  }

  lemma SettingsCallNonces(s: Ledger, t: Ledger, e: Env, c: SettingsCall)
    requires Reachable(s) && TrySettings(s, e, c) == Some(t)
    ensures SameNonces(s, t)
  {
    UnstartedIsEmpty(s);
    SettingsCallFrame(s, t, e, c);
  }

  lemma TreasuryCallNonces(s: Ledger, t: Ledger, e: Env, c: TreasuryCall)
    requires TryTreasury(s, e, c) == Some(t)
    ensures SameNonces(s, t)
  {
    TreasuryCallFrame(s, t, e, c);
  }

  lemma QuietNonces(s: Ledger, t: Ledger, ev: Event)
    requires Reachable(s) && t == Step(s, ev) && Accepted(s, ev).None?
    ensures SameNonces(s, t)
  {
    if Try(s, ev).Some? {
      match ev.call
      case OnRun(c) => RunCallNonces(s, t, ev.env, c);
      case OnRecord(c) => RecordCallNonces(s, t, ev.env, c);
      case OnSettings(c) => SettingsCallNonces(s, t, ev.env, c);
      case OnTreasury(c) => TreasuryCallNonces(s, t, ev.env, c);
    }
  }

  lemma HistoryAdd(history: seq<Acceptance>, sequences: map<Address, NonceSequence>, a: Address, next: NonceSequence)
    requires Sequenced(sequences, history) && Increasing(history)
    requires a in sequences ==> NoncePrefix(next.last) > NoncePrefix(sequences[a].last)
    requires next.current == 1 + if a in sequences then sequences[a].current else 0
    ensures Sequenced(sequences[a := next], history + [Acceptance(a, next.last)])
    ensures Increasing(history + [Acceptance(a, next.last)])
  {
    var longer := history + [Acceptance(a, next.last)];
    assert longer[..|longer| - 1] == history;
  }

  lemma NumberedAdd(counter: nat, index: map<Digest, nat>, history: seq<Acceptance>, entry: Acceptance)
    requires Numbered(counter, index, history) && entry.nonce !in index
    ensures Numbered(counter + 1, index[entry.nonce := counter + 1], history + [entry])
  {}

  lemma {:induction false} HistoryKept(balances: map<Address, nat>, events: seq<Event>)
    ensures var s, history := Run(Genesis(balances), events), History(Genesis(balances), events);
      Numbered(s.counter, s.runNonce, history) && Sequenced(s.sequences, history) && Increasing(history)
  {
    var g := Genesis(balances);
    if events != [] {
      var before, ev := events[..|events| - 1], events[|events| - 1];
      HistoryKept(balances, before);
      var s := Run(g, before);
      assert Reachable(s);
      HistoryStep(s, Step(s, ev), ev, History(g, before));
    }
  }

  lemma HistoryStep(s: Ledger, t: Ledger, ev: Event, history: seq<Acceptance>)
    requires Reachable(s) && t == Step(s, ev)
    requires Numbered(s.counter, s.runNonce, history) && Sequenced(s.sequences, history) && Increasing(history)
    ensures var latest := Accepted(s, ev);
      var longer := history + if latest.Some? then [latest.value] else [];
      Numbered(t.counter, t.runNonce, longer) && Sequenced(t.sequences, longer) && Increasing(longer)
  {
    var latest := Accepted(s, ev);
    if latest.Some? {
      RunCallNonces(s, t, ev.env, ev.call.run);
      HistoryAdd(history, s.sequences, latest.value.admin, t.sequences[latest.value.admin]);
      NumberedAdd(s.counter, s.runNonce, history, latest.value);
    } else {
      assert history + [] == history;
      QuietNonces(s, t, ev);
    }
  }

  // ------------------------------------------------------------------ the theorems

  /** The type of nonces: 32 bytes each. */
  ghost predicate Typed(events: seq<Event>) {
    forall i :: 0 <= i < |events| && events[i].call.OnRun? ==> TypedCall(events[i].call.run)
  }

  predicate TypedCall(c: RunCall) { (c.PrepareCall? ==> WellFormed(c.b.nonce)) && (c.ExecuteCall? ==> WellFormed(c.b.nonce)) }

  lemma {:induction false} HistoryTyped(s: Ledger, events: seq<Event>)
    requires Typed(events)
    ensures forall k :: 0 <= k < |History(s, events)| ==> WellFormed(History(s, events)[k].nonce)
  {
    if events != [] {
      HistoryTyped(s, events[..|events| - 1]);
    }
  }

  /** A larger prefix makes a larger whole. */
  lemma {:induction false} PrefixDecides(x: seq<int>, y: seq<int>, k: nat, n: nat)
    requires k <= n <= |x| == |y| && BigEndian(x[..k]) < BigEndian(y[..k])
    requires forall i :: 0 <= i < n ==> 0 <= x[i] < 256 && 0 <= y[i] < 256
    ensures BigEndian(x[..n]) < BigEndian(y[..n])
    decreases n
  {
    if k < n {
      PrefixDecides(x, y, k, n - 1);
      assert x[..n][..n - 1] == x[..n - 1] && y[..n][..n - 1] == y[..n - 1];
    }
  }

  /** Nonces accepted under one admin strictly increase as 256-bit numbers. */
  lemma NoncesIncrease(balances: map<Address, nat>, events: seq<Event>, i: nat, j: nat)
    requires Typed(events) && i < j < |History(Genesis(balances), events)|
    requires History(Genesis(balances), events)[i].admin == History(Genesis(balances), events)[j].admin
    ensures var history := History(Genesis(balances), events);
      BigEndian(history[i].nonce.bytes) < BigEndian(history[j].nonce.bytes)
  {
    var history := History(Genesis(balances), events);
    HistoryKept(balances, events);
    HistoryTyped(Genesis(balances), events);
    var x, y := history[i].nonce.bytes, history[j].nonce.bytes;
    PrefixDecides(x, y, 16, 32);
    assert x[..32] == x && y[..32] == y;
  }

  /** The nonce index is exactly the history numbered from one, and sequences count it per employer. */
  lemma IndexIsHistory(balances: map<Address, nat>, events: seq<Event>, n: Digest, id: nat)
    ensures var s, history := Run(Genesis(balances), events), History(Genesis(balances), events);
      && (n in s.runNonce && s.runNonce[n] == id <==> 1 <= id <= |history| && history[id - 1].nonce == n)
      && |history| == s.counter == Sum(Counts(s.sequences))
  {
    var s, history := Run(Genesis(balances), events), History(Genesis(balances), events);
    HistoryKept(balances, events);
    assert Reachable(s);
    IndexInjective(s);
  }

  lemma IndexInjective(s: Ledger)
    requires Reachable(s)
    ensures Indexed(s.counter, s.runNonce) && PendingIndexed(s.runNonce, s.pending)
    ensures ExecutedIndexed(s.runNonce, s.executed) && Sum(Counts(s.sequences)) == s.counter
  {
    ReachableKeeps(s);
  }

  // ------------------------------------------------------------------ replay

  lemma {:induction false} UsedForever(s: Ledger, events: seq<Event>, nonce: Digest)
    requires Reachable(s) && nonce in s.runNonce
    ensures nonce in Run(s, events).runNonce
  {
    if events != [] {
      var mid, ev := Run(s, events[..|events| - 1]), events[|events| - 1];
      UsedForever(s, events[..|events| - 1], nonce);
      ReachableRun(s, events[..|events| - 1]);
      if Accepted(mid, ev).Some? {
        RunCallNonces(mid, Step(mid, ev), ev.env, ev.call.run);
      } else {
        QuietNonces(mid, Step(mid, ev), ev);
      }
    }
  }

  /** An accepted nonce is refused ever after, by preparation and by execution, cancelled or not. */
  lemma NonceNeverReused(s: Ledger, events: seq<Event>, e: Env, b: Batch, oracle: seq<bool>)
    requires Reachable(s) && b.nonce in s.runNonce
    ensures Prepare(Run(s, events), e, b) == None && Execute(Run(s, events), e, b, oracle) == None
  {
    UsedForever(s, events, b.nonce);
  }

  // ------------------------------------------------------------------ sixteen bytes of thirty-two

  lemma {:induction false} BigEndianInjective(x: seq<int>, y: seq<int>)
    requires |x| == |y| && BigEndian(x) == BigEndian(y)
    requires forall i :: 0 <= i < |x| ==> 0 <= x[i] < 256 && 0 <= y[i] < 256
    ensures x == y
  {
    if x != [] {
      var n := |x| - 1;
      assert x[n] == y[n] && BigEndian(x[..n]) == BigEndian(y[..n]);
      BigEndianInjective(x[..n], y[..n]);
      assert x == x[..n] + [x[n]] && y == y[..n] + [y[n]];
    }
  }

  /** The comparison accepts exactly the larger 256-bit nonces whose first sixteen bytes are new. */
  lemma NonceAdvancesIff(s: Ledger, employer: Address, nonce: Digest)
    requires employer in s.sequences && WellFormed(nonce) && WellFormed(s.sequences[employer].last)
    ensures var last := s.sequences[employer].last;
      NonceAdvances(s, employer, nonce) <==>
        BigEndian(nonce.bytes) > BigEndian(last.bytes) && nonce.bytes[..16] != last.bytes[..16]
  {
    var x, y := s.sequences[employer].last.bytes, nonce.bytes;
    assert x[..32] == x && y[..32] == y;
    if BigEndian(x[..16]) < BigEndian(y[..16]) {
      PrefixDecides(x, y, 16, 32);
    } else if BigEndian(y[..16]) < BigEndian(x[..16]) {
      PrefixDecides(y, x, 16, 32);
    } else {
      BigEndianInjective(x[..16], y[..16]);
    }
  }
}
