/** Batch execution checkpoints (contracts/payroll/src/lib.rs:1681-1884). */
module Checkpoints {
  import opened Common

  datatype CheckpointState = Started | PartiallyCheckpointed | Resumed | Completed | Failed

  datatype Key = Key(employer: Address, root: Digest, asset: Address, nonce: Digest)

  datatype Checkpoint = Checkpoint(
    key: Key, state: CheckpointState, last: nat, total: nat, completed: bool, failed: bool)

  type Table = map<Key, Checkpoint>

  predicate ZeroKey(key: Key) { key.root == ZeroDigest() || key.nonce == ZeroDigest() }

  /** `authorised`: the caller is the stored admin and has authorised the call. */
  datatype Call =
    | Begin(authorised: bool, key: Key, index: nat)
    | Progress(authorised: bool, key: Key, index: nat, state: CheckpointState)
    | Resume(authorised: bool, key: Key, index: nat)

  function TryBegin(t: Table, authorised: bool, key: Key, index: nat): Option<Table> {
    if ZeroKey(key) || !authorised || key in t then None
    else Some(t[key := Checkpoint(key, Started, index, 1, false, false)])
  }

  function TryProgress(t: Table, authorised: bool, key: Key, index: nat, state: CheckpointState): Option<Table> {
    if !authorised || key !in t || t[key].key != key then None
    else
      var c := t[key];
      if c.completed || c.failed || index < c.last || state == Started || state == Resumed || c.total >= U32_MAX
      then None
      else Some(t[key := Checkpoint(key, state, index, c.total + 1, state == Completed, state == Failed)])
  }

  function TryResume(t: Table, authorised: bool, key: Key, index: nat): Option<Table> {
    if ZeroKey(key) || !authorised || key !in t || t[key].key != key then None
    else
      var c := t[key];
      if index != c.last || c.state in {Resumed, Completed, Failed} || c.completed || c.failed then None
      else Some(t[key := c.(state := Resumed, last := index)])
  }

  function Try(t: Table, c: Call): Option<Table> {
    match c
    case Begin(authorised, key, index) => TryBegin(t, authorised, key, index)
    case Progress(authorised, key, index, state) => TryProgress(t, authorised, key, index, state)
    case Resume(authorised, key, index) => TryResume(t, authorised, key, index)
  }

  function After(t: Table, outcome: Option<Table>): Table { if outcome.Some? then outcome.value else t }

  function Run(t: Table, calls: seq<Call>): Table {
    if calls == [] then t
    else
      var before := Run(t, calls[..|calls| - 1]);
      After(before, Try(before, calls[|calls| - 1]))
  }

  /** How many calls of one kind about one key succeed in a run. */
  function Resumes(t: Table, calls: seq<Call>, key: Key): nat {
    if calls == [] then 0
    else
      var c, before := calls[|calls| - 1], calls[..|calls| - 1];
      Resumes(t, before, key) + if c.Resume? && c.key == key && Try(Run(t, before), c).Some? then 1 else 0
  }

  function Progresses(t: Table, calls: seq<Call>, key: Key): nat {
    if calls == [] then 0
    else
      var c, before := calls[|calls| - 1], calls[..|calls| - 1];
      Progresses(t, before, key) + if c.Progress? && c.key == key && Try(Run(t, before), c).Some? then 1 else 0
  }

  // ------------------------------------------------------------------ theorems

  /** The redundant fields of a record agree: it names its own key and the flags follow the state. */
  ghost predicate Agrees(t: Table) {
    forall key :: key in t ==>
      && t[key].key == key && t[key].completed == (t[key].state == Completed) && t[key].failed == (t[key].state == Failed)
  }

  lemma {:induction false} RunAgrees(calls: seq<Call>)
    ensures Agrees(Run(map[], calls))
  {
    if calls != [] {
      RunAgrees(calls[..|calls| - 1]);
    }
  }

  /** What never goes back: the record exists, its index and its total, and a finished record itself. */
  ghost predicate Later(t: Table, u: Table, key: Key) {
    key in t ==>
      && key in u && t[key].last <= u[key].last && t[key].total <= u[key].total
      && (t[key].completed || t[key].failed ==> u[key] == t[key])
  }

  /** Indices never decrease, and completed and failed records never change, from any table on. */
  lemma {:induction false} RunLater(t: Table, calls: seq<Call>, key: Key)
    requires Agrees(t)
    ensures Agrees(Run(t, calls)) && Later(t, Run(t, calls), key)
  {
    if calls != [] {
      RunLater(t, calls[..|calls| - 1], key);
    }
  }

  /** A progress record separates two resumes, so there are never more resumes than checkpoints. */
  lemma {:induction false} ResumesBounded(calls: seq<Call>, key: Key)
    ensures var t := Run(map[], calls);
      if key in t then
        && t[key].total == 1 + Progresses(map[], calls, key)
        && Resumes(map[], calls, key) + (if t[key].state == Resumed then 0 else 1) <= t[key].total
      else Resumes(map[], calls, key) == Progresses(map[], calls, key) == 0
  {
    if calls != [] {
      ResumesBounded(calls[..|calls| - 1], key);
    }
  }

  // ------------------------------------------------------------------ the latest call

  /** The last call about a key that succeeds in a run. */
  function Latest(t: Table, calls: seq<Call>, key: Key): Option<Call> {
    if calls == [] then None
    else
      var c, before := calls[|calls| - 1], calls[..|calls| - 1];
      if c.key == key && Try(Run(t, before), c).Some? then Some(c) else Latest(t, before, key)
  }

  /** The state a call asks for. */
  function Asked(c: Call): CheckpointState {
    match c
    case Begin(_, _, _) => Started
    case Progress(_, _, _, state) => state
    case Resume(_, _, _) => Resumed
  }

  /** A record says exactly what the latest successful call about its key asked for. */
  lemma {:induction false} LatestRecorded(calls: seq<Call>, key: Key)
    ensures var t, latest := Run(map[], calls), Latest(map[], calls, key);
      && (key in t <==> latest.Some?)
      && (key in t ==> t[key].last == latest.value.index && t[key].state == Asked(latest.value))
  {
    if calls != [] {
      LatestRecorded(calls[..|calls| - 1], key);
    }
  }

  predicate Nonzero(d: Digest) { d.bytes != seq(32, _ => 0) }

  lemma NonzeroIs(key: Key)
    ensures ZeroKey(key) <==> !(Nonzero(key.root) && Nonzero(key.nonce))
  {}

  /** Progress is recorded on a live record, at an index not before its last, with room in the total. */
  lemma ProgressIff(t: Table, authorised: bool, key: Key, index: nat, state: CheckpointState)
    requires Agrees(t)
    ensures TryProgress(t, authorised, key, index, state).Some? <==>
      && authorised && key in t && t[key].state != Completed && t[key].state != Failed && t[key].last <= index
      && (state == PartiallyCheckpointed || state == Completed || state == Failed) && t[key].total < 4_294_967_295
  {}

  /** A record is resumed at its own last index, from a start or from progress. */
  lemma ResumeIff(t: Table, authorised: bool, key: Key, index: nat)
    requires Agrees(t)
    ensures TryResume(t, authorised, key, index).Some? <==>
      && authorised && Nonzero(key.root) && Nonzero(key.nonce) && key in t && index == t[key].last
      && (t[key].state == Started || t[key].state == PartiallyCheckpointed)
  {
    NonzeroIs(key);
  }

  // ------------------------------------------------------------------ the contract's storage

  /** The tables that some sequence of calls leads to. */
  ghost predicate Reachable(t: Table) { exists calls :: t == Run(map[], calls) }

  lemma ReachableStep(t: Table, c: Call)
    requires Reachable(t)
    ensures Reachable(After(t, Try(t, c))) && Agrees(t)
  {
    var calls :| t == Run(map[], calls);
    RunAgrees(calls);
    var more := calls + [c];
    assert more[..|more| - 1] == calls;
    assert Run(map[], more) == After(t, Try(t, c));
  }

  /** A key that has been begun can never be begun again. */
  lemma BegunForever(t: Table, calls: seq<Call>, key: Key, authorised: bool, index: nat)
    requires Agrees(t) && key in t
    ensures TryBegin(Run(t, calls), authorised, key, index) == None
  {
    RunLater(t, calls, key);
  }

  class CheckpointStore {
    var table: Table

    ghost predicate Valid()
      reads this
    {
      Reachable(table)
    }

    constructor ()
      ensures Valid() && table == map[]
    {
      table := map[];
      assert Run(map[], []) == map[];
    }

    /** Once begun, a key is refused ever after. */
    method BeginBatchExecution(authorised: bool, key: Key, index: nat) returns (ok: bool)
      requires Valid()
      modifies this
      ensures Valid() && table == After(old(table), TryBegin(old(table), authorised, key, index))
      ensures ok <==> authorised && Nonzero(key.root) && Nonzero(key.nonce) && key !in old(table)
      ensures ok ==> key in table && table[key].last == index && table[key].state == Started && table[key].total == 1
      ensures ok ==> key in table && forall calls, a, i :: TryBegin(Run(table, calls), a, key, i) == None
    {
      NonzeroIs(key);
      ReachableStep(table, Begin(authorised, key, index));
      if ZeroKey(key) || !authorised || key in table {
        return false;
      }
      table := table[key := Checkpoint(key, Started, index, 1, false, false)];
      ReachableStep(table, Begin(authorised, key, index));
      forall calls, a, i
        ensures TryBegin(Run(table, calls), a, key, i) == None
      {
        BegunForever(table, calls, key, a, i);
      }
      return true;
    }

    /** Progress never goes back; a record completed or failed is final. */
    method RecordProgress(authorised: bool, key: Key, index: nat, state: CheckpointState) returns (ok: bool)
      requires Valid()
      modifies this
      ensures Valid() && table == After(old(table), TryProgress(old(table), authorised, key, index, state))
      ensures ok <==>
        && authorised && key in old(table) && old(table)[key].state != Completed && old(table)[key].state != Failed
        && old(table)[key].last <= index && old(table)[key].total < 4_294_967_295
        && (state == PartiallyCheckpointed || state == Completed || state == Failed)
      ensures ok ==> Later(old(table), table, key) && table[key].last == index && table[key].state == state
      ensures ok && (state == Completed || state == Failed) ==>
        forall calls :: key in Run(table, calls) && Run(table, calls)[key] == table[key]
    {
      ReachableStep(table, Progress(authorised, key, index, state));
      ProgressIff(table, authorised, key, index, state);
      if !authorised || key !in table || table[key].key != key {
        return false;
      }
      var c := table[key];
      if c.completed || c.failed || index < c.last || state == Started || state == Resumed || c.total >= U32_MAX {
        return false;
      }
      c := c.(last := index);
      c := c.(state := state);
      c := c.(total := c.total + 1);
      c := c.(completed := state == Completed, failed := state == Failed);
      table := table[key := c];
      ReachableStep(table, Progress(authorised, key, index, state));
      if state == Completed || state == Failed {
        forall calls
          ensures key in Run(table, calls) && Run(table, calls)[key] == table[key]
        {
          RunLater(table, calls, key);
        }
      }
      return true;
    }

    /** A resumed record cannot be resumed again before the next progress. */
    method ResumeBatchExecution(authorised: bool, key: Key, index: nat) returns (ok: bool)
      requires Valid()
      modifies this
      ensures Valid() && table == After(old(table), TryResume(old(table), authorised, key, index))
      ensures ok <==>
        && authorised && Nonzero(key.root) && Nonzero(key.nonce) && key in old(table) && index == old(table)[key].last
        && (old(table)[key].state == Started || old(table)[key].state == PartiallyCheckpointed)
      ensures ok ==> Later(old(table), table, key) && table[key].total == old(table)[key].total
      ensures ok ==> forall a, i :: TryResume(table, a, key, i) == None
    {
      ReachableStep(table, Resume(authorised, key, index));
      ResumeIff(table, authorised, key, index);
      if ZeroKey(key) || !authorised || key !in table || table[key].key != key {
        return false;
      }
      var c := table[key];
      if index != c.last || c.state in {Resumed, Completed, Failed} || c.completed || c.failed {
        return false;
      }
      c := c.(state := Resumed);
      c := c.(last := index);
      table := table[key := c];
      return true;
    }
  }
}
