/**
 Company registration and admin rotation in the registry contract
 (contracts/payroll_registry/src/lib.rs:399-434, 593-689), with its admin-to-company index.
 */
module CompanyIndex {
  import opened Common

  datatype Company = Company(admin: Address, treasury: Address)

  datatype Registry = Registry(
    companies: map<nat, Company>, sequence: nat, index: map<Address, nat>, proposals: map<nat, Address>)

  const EMPTY := Registry(map[], 0, map[], map[])

  datatype Call =
    | Register(admin: Address, treasury: Address)
    | Propose(company: nat, admin: Address, holder: Address)
    | Accept(company: nat, holder: Address)
    | Cancel(company: nat, admin: Address)

  datatype Event = Event(env: Env, call: Call)

  function TryRegister(r: Registry, e: Env, admin: Address, treasury: Address): Option<Registry> {
    if e.paused || admin !in e.auth || admin in r.index || r.sequence >= U64_MAX then None
    else Some(r.(companies := r.companies[r.sequence := Company(admin, treasury)],
                 sequence := r.sequence + 1,
                 index := r.index[admin := r.sequence]))
  }

  predicate IsAdmin(r: Registry, e: Env, company: nat, admin: Address) {
    company in r.companies && r.companies[company].admin == admin && admin in e.auth
  }

  function TryPropose(r: Registry, e: Env, company: nat, admin: Address, holder: Address): Option<Registry> {
    if e.paused || !IsAdmin(r, e, company, admin) || company in r.proposals then None
    else Some(r.(proposals := r.proposals[company := holder]))
  }

  function TryAccept(r: Registry, e: Env, company: nat, holder: Address): Option<Registry> {
    if || e.paused || company !in r.proposals || r.proposals[company] != holder || holder !in e.auth
       || company !in r.companies
    then None
    else
      var c := r.companies[company];
      Some(r.(companies := r.companies[company := c.(admin := holder)],
              proposals := r.proposals - {company},
              index := (r.index - {c.admin})[holder := company]))
  }

  function TryCancel(r: Registry, e: Env, company: nat, admin: Address): Option<Registry> {
    if e.paused || !IsAdmin(r, e, company, admin) || company !in r.proposals then None
    else Some(r.(proposals := r.proposals - {company}))
  }

  function Try(r: Registry, ev: Event): Option<Registry> {
    match ev.call
    case Register(admin, treasury) => TryRegister(r, ev.env, admin, treasury)
    case Propose(company, admin, holder) => TryPropose(r, ev.env, company, admin, holder)
    case Accept(company, holder) => TryAccept(r, ev.env, company, holder)
    case Cancel(company, admin) => TryCancel(r, ev.env, company, admin)
  }

  function After(r: Registry, outcome: Option<Registry>): Registry { if outcome.Some? then outcome.value else r }

  function Step(r: Registry, ev: Event): Registry { After(r, Try(r, ev)) }

  function Run(r: Registry, events: seq<Event>): Registry {
    if events == [] then r else Step(Run(r, events[..|events| - 1]), events[|events| - 1])
  }

  // ------------------------------------------------------------------ the index

  /** Companies are numbered below the sequence, and only they have proposals. */
  ghost predicate Numbered(r: Registry) {
    && (forall id: nat :: id in r.companies <==> id < r.sequence)
    && (forall id :: id in r.proposals ==> id in r.companies)
  }

  /** Every index entry names a company whose admin is that address. */
  ghost predicate Sound(index: map<Address, nat>, companies: map<nat, Company>) {
    forall a :: a in index ==> index[a] in companies && companies[index[a]].admin == a
  }

  /** Every company is found under its admin. */
  ghost predicate Complete(index: map<Address, nat>, companies: map<nat, Company>) {
    forall id :: id in companies ==> companies[id].admin in index && index[companies[id].admin] == id
  }

  lemma StepSound(r: Registry, ev: Event)
    requires Numbered(r) && Sound(r.index, r.companies)
    ensures Numbered(Step(r, ev)) && Sound(Step(r, ev).index, Step(r, ev).companies)
  {}

  /** In every run the index is sound, so no two addresses name one company. */
  lemma {:induction false} RunSound(events: seq<Event>)
    ensures var r := Run(EMPTY, events);
      && Numbered(r) && Sound(r.index, r.companies)
      && forall a, b :: a in r.index && b in r.index && r.index[a] == r.index[b] ==> a == b
  {
    var r := Run(EMPTY, events);
    if events != [] {
      RunSound(events[..|events| - 1]);
      StepSound(Run(EMPTY, events[..|events| - 1]), events[|events| - 1]);
    }
    assert forall a, b :: a in r.index && b in r.index && r.index[a] == r.index[b] ==>
      r.companies[r.index[a]].admin == a && r.companies[r.index[b]].admin == b;
  }

  /** Whether an address is the admin of some company other than this one. */
  ghost predicate AdminElsewhere(r: Registry, a: Address, company: nat) {
    exists id :: id in r.companies && id != company && r.companies[id].admin == a
  }

  /** Accepting an admin role keeps the index complete exactly when the new admin runs no other company. */
  lemma AcceptCompleteIff(r: Registry, t: Registry, e: Env, company: nat, holder: Address)
    requires Numbered(r) && Sound(r.index, r.companies) && Complete(r.index, r.companies)
    requires TryAccept(r, e, company, holder) == Some(t)
    ensures Complete(t.index, t.companies) <==> !AdminElsewhere(r, holder, company)
  {
    if id :| id in r.companies && id != company && r.companies[id].admin == holder {
      assert t.companies[id].admin == holder && t.index[holder] == company;
    }
  }

  lemma StepComplete(r: Registry, ev: Event)
    requires Numbered(r) && Sound(r.index, r.companies) && Complete(r.index, r.companies)
    requires ev.call.Accept? ==> !AdminElsewhere(r, ev.call.holder, ev.call.company)
    ensures Complete(Step(r, ev).index, Step(r, ev).companies)
  {
    if Try(r, ev).Some? && ev.call.Accept? {
      AcceptCompleteIff(r, Try(r, ev).value, ev.env, ev.call.company, ev.call.holder);
    }
  }

  /** No successful acceptance of the run is by the admin of another company. */
  ghost predicate Careful(events: seq<Event>) {
    forall n :: 0 <= n < |events| && events[n].call.Accept? && Try(Run(EMPTY, events[..n]), events[n]).Some? ==>
      !AdminElsewhere(Run(EMPTY, events[..n]), events[n].call.holder, events[n].call.company)
  }

  /** In careful runs the index is the exact inverse of the company table. */
  lemma RunExact(events: seq<Event>)
    requires Careful(events)
    ensures var r := Run(EMPTY, events);
      forall a, id :: a in r.index && r.index[a] == id <==> id in r.companies && r.companies[id].admin == a
  {
    RunComplete(events);
    RunSound(events);
  }

  lemma {:induction false} RunComplete(events: seq<Event>)
    requires Careful(events)
    ensures Complete(Run(EMPTY, events).index, Run(EMPTY, events).companies)
  {
    if events != [] {
      var k := |events| - 1;
      assert forall n :: 0 <= n < k ==> events[..k][..n] == events[..n];
      RunComplete(events[..k]);
      RunSound(events[..k]);
      if Try(Run(EMPTY, events[..k]), events[k]).Some? {
        StepComplete(Run(EMPTY, events[..k]), events[k]);
      }
    }
  }

  // ------------------------------------------------------------------ a run that is not careful

  const HOST := Env({1, 2}, false, 0, 0)

  /** Two companies; the second one's admin takes over the first as well. */
  function TwoCompanies(): Registry {
    Registry(map[0 := Company(1, 9), 1 := Company(2, 9)], 2, map[1 := 0, 2 := 1], map[0 := 2])
  }

  lemma EntryLost()
    ensures exists events :: Run(EMPTY, events) == TwoCompanies()
    ensures var t := Step(TwoCompanies(), Event(HOST, Accept(0, 2)));
      t.companies == map[0 := Company(2, 9), 1 := Company(2, 9)] && t.index == map[2 := 0]
  {
    var first := Event(HOST, Register(1, 9));
    var second := Event(HOST, Register(2, 9));
    var third := Event(HOST, Propose(0, 1, 2));
    var events := [first, second, third];
    assert events[..2][..1][..0] == [] && events[..2][..1] == [first] && events[..2] == [first, second];
    assert Run(EMPTY, [first]) == Step(EMPTY, first);
    assert Run(EMPTY, [first, second]) == Step(Step(EMPTY, first), second);
    assert Run(EMPTY, events) == TwoCompanies();
  }

  // ------------------------------------------------------------------ the contract's storage

  /** The registries that some sequence of calls leads to. */
  ghost predicate Reachable(r: Registry) { exists events :: r == Run(EMPTY, events) }

  lemma ReachableStep(r: Registry, ev: Event)
    requires Reachable(r)
    ensures Reachable(Step(r, ev)) && Numbered(r) && Sound(r.index, r.companies)
  {
    var events :| r == Run(EMPTY, events);
    RunSound(events);
    var more := events + [ev];
    assert more[..|more| - 1] == events;
    assert Run(EMPTY, more) == Step(r, ev);
  }

  ghost predicate RunsCompany(companies: map<nat, Company>, a: Address) {
    exists id :: id in companies && companies[id].admin == a
  }

  /** Registering keeps a complete index complete, and is refused exactly to those who run a company. */
  lemma RegisterComplete(r: Registry, e: Env, admin: Address, treasury: Address)
    requires Numbered(r) && Sound(r.index, r.companies) && Complete(r.index, r.companies)
    ensures var t := After(r, TryRegister(r, e, admin, treasury)); Complete(t.index, t.companies)
    ensures TryRegister(r, e, admin, treasury).Some? <==>
      !e.paused && admin in e.auth && r.sequence < U64_MAX && !RunsCompany(r.companies, admin)
  {}

  class RegistryContract {
    var companies: map<nat, Company>
    var sequence: nat
    var index: map<Address, nat>
    var proposals: map<nat, Address>

    function View(): Registry
      reads this
    {
      Registry(companies, sequence, index, proposals)
    }

    ghost predicate Valid()
      reads this
    {
      Reachable(View())
    }

    constructor ()
      ensures Valid() && View() == EMPTY
    {
      companies, sequence, index, proposals := map[], 0, map[], map[];
      new;
      assert View() == Run(EMPTY, []);
    }

    /** With a complete index, registration is refused exactly to those who already run a company. */
    method RegisterCompany(e: Env, admin: Address, treasury: Address) returns (id: Option<nat>)
      requires Valid()
      modifies this
      ensures Valid() && View() == After(old(View()), TryRegister(old(View()), e, admin, treasury))
      ensures id.Some? ==> id.value !in old(companies) && companies == old(companies)[id.value := Company(admin, treasury)]
      ensures Complete(old(index), old(companies)) ==>
        && Complete(index, companies)
        && (id.Some? <==> !e.paused && admin in e.auth && old(sequence) < U64_MAX && !RunsCompany(old(companies), admin))
    {
      ReachableStep(View(), Event(e, Register(admin, treasury)));
      if Complete(index, companies) {
        RegisterComplete(View(), e, admin, treasury);
      }
      if e.paused || admin !in e.auth || admin in index || sequence >= U64_MAX {
        return None;
      }
      var next := sequence;
      sequence := next + 1;
      companies := companies[next := Company(admin, treasury)];
      index := index[admin := next];
      return Some(next);
    }

    /** After a proposal exactly its holder can accept. */
    method ProposeAdminRotation(e: Env, company: nat, admin: Address, holder: Address) returns (ok: bool)
      requires Valid()
      modifies this
      ensures Valid() && View() == After(old(View()), TryPropose(old(View()), e, company, admin, holder))
      ensures ok <==>
        && !e.paused && company in old(companies) && old(companies)[company].admin == admin && admin in e.auth
        && company !in old(proposals)
      ensures ok ==> forall e', h ::
        TryAccept(View(), e', company, h).Some? <==> h == holder && !e'.paused && h in e'.auth
    {
      ReachableStep(View(), Event(e, Propose(company, admin, holder)));
      if e.paused || !IsAdmin(View(), e, company, admin) || company in proposals {
        return false;
      }
      proposals := proposals[company := holder];
      return true;
    }

    /** The holder is the admin and indexed; the index stays complete exactly when it runs no other company. */
    method AcceptAdminRotation(e: Env, company: nat, holder: Address) returns (ok: bool)
      requires Valid()
      modifies this
      ensures Valid() && View() == After(old(View()), TryAccept(old(View()), e, company, holder))
      ensures ok <==>
        !e.paused && company in old(proposals) && old(proposals)[company] == holder && holder in e.auth
      ensures ok ==> company in old(companies)
      ensures ok ==> companies == old(companies)[company := Company(holder, old(companies)[company].treasury)]
      ensures ok ==> company !in proposals && holder in index && index[holder] == company
      ensures ok && Complete(old(index), old(companies)) ==>
        (Complete(index, companies) <==> !AdminElsewhere(old(View()), holder, company))
    {
      ReachableStep(View(), Event(e, Accept(company, holder)));
      if || e.paused || company !in proposals || proposals[company] != holder || holder !in e.auth
         || company !in companies
      {
        return false;
      }
      if Complete(index, companies) {
        AcceptCompleteIff(View(), TryAccept(View(), e, company, holder).value, e, company, holder);
      }
      var info := companies[company];
      var former := info.admin;
      info := info.(admin := holder);
      companies := companies[company := info];
      proposals := proposals - {company};
      index := index - {former};
      index := index[holder := company];
      return true;
    }

    /** After a cancellation nobody can accept; companies and index are untouched. */
    method CancelAdminRotation(e: Env, company: nat, admin: Address) returns (ok: bool)
      requires Valid()
      modifies this
      ensures Valid() && View() == After(old(View()), TryCancel(old(View()), e, company, admin))
      ensures ok <==>
        && !e.paused && company in old(companies) && old(companies)[company].admin == admin && admin in e.auth
        && company in old(proposals)
      ensures ok ==> forall e', h :: TryAccept(View(), e', company, h) == None
      ensures companies == old(companies) && index == old(index)
    {
      ReachableStep(View(), Event(e, Cancel(company, admin)));
      if e.paused || !IsAdmin(View(), e, company, admin) || company !in proposals {
        return false;
      }
      proposals := proposals - {company};
      return true;
    }
  }
}
