/**
 The guards of inbound routing, with each check and its write as separate commits.
 No lock spans the two, so other requests may commit in between: this module says
 exactly when such a run keeps the routing keys unambiguous.
 */
module RoutingRaces {
  import opened Common
  import opened InboundRouting

  // ---------- The two halves of a guarded request ----------

  /** The requests that ask the conflict guard before they write. */
  predicate Guarded(r: Request) {
    r.CreateNumber? || (r.UpdateConfiguration? && r.replacement.Some?)
  }

  /** Everything the handler checks before its write. */
  ghost predicate Passes(registry: Registry, db: Db, r: Request)
    requires Guarded(r)
  {
    && OwnsConfiguration(db, r.org, r.config)
    && if r.CreateNumber? then
         (r.trunk.Some? ==> TrunkOf(db, r.trunk.value, r.config)) && r.address.Some?
         && AddressIsFree(registry, db, r.config, r.address.value) && r.providerAccepts
       else
         NoConflict(registry, db, db.configurations[r.config].provider, r.replacement.value,
                    AddressesOf(db, r.config), Some(db.configurations[r.config].credentials), Some(r.config))
  }

  /** The database accepts the write: references resolve and the address is new. */
  predicate TakesEffect(db: Db, r: Request)
    requires Guarded(r)
  {
    r.config in db.configurations
    && (r.CreateNumber? ==>
          r.address.Some? && (r.trunk.Some? ==> r.trunk.value in db.trunks)
          && !AddressTaken(db, r.org, r.address.value))
  }

  function Inserted(db: Db, r: Request): Db
    requires r.CreateNumber? && r.address.Some?
  {
    var numbers := if r.isDefault then WithoutDefault(db, r.config) else db.numbers;
    db.(numbers := numbers[db.nextId :=
          PhoneNumber(r.org, r.config, r.address.value, r.trunk, r.isActive, r.isDefault)],
        nextId := db.nextId + 1)
  }

  /** The write alone; it asks no guard. */
  function Written(db: Db, r: Request): Db
    requires Guarded(r)
  {
    if !TakesEffect(db, r) then db
    else if r.CreateNumber? then Inserted(db, r)
    else WithCredentials(db, r.config, r.replacement.value)
  }

  /** A request served at once is its check followed by its write. */
  lemma ServedIsCheckedThenWritten(registry: Registry, db: Db, r: Request)
    requires Guarded(r)
    ensures Apply(registry, db, r) == if Passes(registry, db, r) then Written(db, r) else db
  {
  }

  /** The guard, asked of the tables as they are at the write, without its shortcut. */
  ghost predicate StillPasses(registry: Registry, db: Db, r: Request)
    requires Guarded(r) && TakesEffect(db, r)
  {
    if r.CreateNumber? then AddressIsFree(registry, db, r.config, r.address.value)
    else AddressesAreFree(registry, db, r.config, r.replacement.value)
  }

  lemma InsertAddsNumber(db: Db, r: Request)
    requires Consistent(db) && r.CreateNumber? && TakesEffect(db, r)
    requires db.configurations[r.config].organizationId == r.org
    ensures AddsNumber(db, Inserted(db, r), r.config, r.address.value) && Consistent(Inserted(db, r))
  {
    AddingIsConsistent(db, Inserted(db, r), r.org, r.config, r.address.value);
  }

  lemma WriteKeepsConsistent(db: Db, r: Request)
    requires Consistent(db) && Guarded(r)
    requires TakesEffect(db, r) ==> db.configurations[r.config].organizationId == r.org
    ensures Consistent(Written(db, r))
  {
    if TakesEffect(db, r) {
      if r.CreateNumber? {
        InsertAddsNumber(db, r);
      } else {
        EditIsConsistent(db, r.config, r.replacement.value);
      }
    }
  }

  /** A write keeps the keys unambiguous exactly when its guard, asked again at that
      moment, would still pass. */
  lemma WriteIsSafeExactlyWhenGuardStillPasses(registry: Registry, db: Db, r: Request)
    requires Consistent(db) && Unambiguous(registry, db) && Guarded(r) && TakesEffect(db, r)
    requires db.configurations[r.config].organizationId == r.org && Consistent(Written(db, r))
    ensures Unambiguous(registry, Written(db, r)) <==> StillPasses(registry, db, r)
  {
    if r.CreateNumber? {
      InsertAddsNumber(db, r);
      AddingIsSafeExactlyWhenFree(registry, db, Inserted(db, r), r.config, r.address.value);
    } else {
      EditIsSafeExactlyWhenFree(registry, db, r.config, r.replacement.value);
    }
  }

  // ---------- Interleaved requests ----------

  /** A guarded request between its check and its write, with the tables it checked. */
  datatype Ticket = Ticket(request: Request, seen: Db)

  datatype System = System(db: Db, tickets: map<nat, Ticket>)

  datatype Event =
    | Check(t: nat, request: Request)
    | Write(t: nat)
    | AtOnce(request: Request)   // a request without a guard

  predicate Enabled(s: System, e: Event) {
    match e
    case Check(t, r) => t !in s.tickets && Guarded(r)
    case Write(t) => t in s.tickets && Guarded(s.tickets[t].request)
    case AtOnce(r) => !Guarded(r)
  }

  ghost function Next(registry: Registry, s: System, e: Event): System
    requires Enabled(s, e)
  {
    match e
    case Check(t, r) => if Passes(registry, s.db, r) then s.(tickets := s.tickets[t := Ticket(r, s.db)]) else s
    case Write(t) => System(Written(s.db, s.tickets[t].request), s.tickets - {t})
    case AtOnce(r) => s.(db := Apply(registry, s.db, r))
  }

  ghost function Run(registry: Registry, s: System, es: seq<Event>): Option<System>
    decreases |es|
  {
    if es == [] then Some(s)
    else match Run(registry, s, Front(es))
      case None => None
      case Some(before) => if Enabled(before, Last(es)) then Some(Next(registry, before, Last(es))) else None
  }

  /** Ids are never used twice, and a configuration keeps its organization and provider. */
  predicate SameConfiguration(db: Db, seen: Db, config: nat) {
    config in seen.configurations && config < db.nextId
    && (config in db.configurations ==>
          db.configurations[config].organizationId == seen.configurations[config].organizationId
          && db.configurations[config].provider == seen.configurations[config].provider)
  }

  ghost predicate TicketOk(registry: Registry, db: Db, k: Ticket) {
    Guarded(k.request) && Consistent(k.seen) && Passes(registry, k.seen, k.request)
    && SameConfiguration(db, k.seen, k.request.config)
  }

  ghost predicate Inv(registry: Registry, s: System) {
    Consistent(s.db) && forall t :: t in s.tickets ==> TicketOk(registry, s.db, s.tickets[t])
  }

  lemma WriteKeepsConfigurations(db: Db, seen: Db, r: Request, config: nat)
    requires Guarded(r) && SameConfiguration(db, seen, config)
    ensures SameConfiguration(Written(db, r), seen, config)
  {
  }

  lemma OthersKeepConfigurations(registry: Registry, db: Db, seen: Db, r: Request, config: nat)
    requires !Guarded(r) && SameConfiguration(db, seen, config)
    ensures SameConfiguration(Apply(registry, db, r), seen, config)
  {
  }

  lemma StepKeepsInvariant(registry: Registry, s: System, e: Event)
    requires Inv(registry, s) && Enabled(s, e)
    ensures Inv(registry, Next(registry, s, e))
  {
    match e
    case Check(_, _) =>
    case Write(t) =>
      var r := s.tickets[t].request;
      assert TicketOk(registry, s.db, s.tickets[t]);
      WriteKeepsConsistent(s.db, r);
      forall u | u in s.tickets && u != t ensures TicketOk(registry, Written(s.db, r), s.tickets[u]) {
        WriteKeepsConfigurations(s.db, s.tickets[u].seen, r, s.tickets[u].request.config);
      }
    case AtOnce(r) =>
      RequestKeepsConsistent(registry, s.db, r);
      forall u | u in s.tickets ensures TicketOk(registry, Apply(registry, s.db, r), s.tickets[u]) {
        OthersKeepConfigurations(registry, s.db, s.tickets[u].seen, r, s.tickets[u].request.config);
      }
  }

  /** The event is a write that takes effect although its guard would no longer pass. */
  ghost predicate StaleWrite(registry: Registry, s: System, e: Event)
    requires Enabled(s, e)
  {
    e.Write? && TakesEffect(s.db, s.tickets[e.t].request) && !StillPasses(registry, s.db, s.tickets[e.t].request)
  }

  /** From unambiguous keys, one event makes them ambiguous exactly when it is a stale write. */
  lemma StepIsSafeExactlyUnlessStale(registry: Registry, s: System, e: Event)
    requires Inv(registry, s) && Unambiguous(registry, s.db) && Enabled(s, e)
    requires Consistent(Next(registry, s, e).db)
    ensures Unambiguous(registry, Next(registry, s, e).db) <==> !StaleWrite(registry, s, e)
  {
    match e
    case Check(_, _) =>
    case Write(t) =>
      assert TicketOk(registry, s.db, s.tickets[t]);
      if TakesEffect(s.db, s.tickets[t].request) {
        WriteIsSafeExactlyWhenGuardStillPasses(registry, s.db, s.tickets[t].request);
      }
    case AtOnce(r) => OthersKeepKeys(registry, s.db, r);
  }

  ghost predicate NoStaleWrite(registry: Registry, s: System, es: seq<Event>)
    requires Run(registry, s, es).Some?
    decreases |es|
  {
    es == [] || (NoStaleWrite(registry, s, Front(es))
                 && !StaleWrite(registry, Run(registry, s, Front(es)).value, Last(es)))
  }

  ghost predicate KeysAreUnique(registry: Registry, s: System) {
    Consistent(s.db) && Unambiguous(registry, s.db)
  }

  /** The keys are unambiguous in every state of the run. */
  ghost predicate AlwaysUnique(registry: Registry, s: System, es: seq<Event>)
    requires Run(registry, s, es).Some?
    decreases |es|
  {
    KeysAreUnique(registry, Run(registry, s, es).value) && (es == [] || AlwaysUnique(registry, s, Front(es)))
  }

  lemma {:induction false} RunKeepsInvariant(registry: Registry, s: System, es: seq<Event>)
    requires Inv(registry, s) && Run(registry, s, es).Some?
    ensures Inv(registry, Run(registry, s, es).value)
    decreases |es|
  {
    if es != [] {
      RunKeepsInvariant(registry, s, Front(es));
      StepKeepsInvariant(registry, Run(registry, s, Front(es)).value, Last(es));
    }
  }

  /** However requests interleave, the keys stay unambiguous throughout exactly when
      every write's guard would still have passed at the moment of the write. */
  lemma {:induction false} RunIsSafeExactlyWithoutStaleWrites(registry: Registry, s: System, es: seq<Event>)
    requires Inv(registry, s) && Unambiguous(registry, s.db) && Run(registry, s, es).Some?
    ensures AlwaysUnique(registry, s, es) <==> NoStaleWrite(registry, s, es)
    decreases |es|
  {
    if es != [] {
      var before := Run(registry, s, Front(es)).value;
      RunIsSafeExactlyWithoutStaleWrites(registry, s, Front(es));
      RunKeepsInvariant(registry, s, Front(es));
      StepKeepsInvariant(registry, before, Last(es));
      if AlwaysUnique(registry, s, Front(es)) {
        EndIsUnique(registry, s, Front(es));
        StepIsSafeExactlyUnlessStale(registry, before, Last(es));
      }
    }
  }

  lemma EndIsUnique(registry: Registry, s: System, es: seq<Event>)
    requires Run(registry, s, es).Some? && AlwaysUnique(registry, s, es)
    ensures KeysAreUnique(registry, Run(registry, s, es).value)
  {
  }

  // ---------- What a stale write has missed ----------

  /** Another number that holds, or would share, the key the request gives to `address`. */
  ghost predicate Holds(registry: Registry, db: Db, r: Request, id: nat, address: string)
    requires Guarded(r) && r.config in db.configurations
  {
    var c := db.configurations[r.config];
    var credentials := if r.CreateNumber? then c.credentials else r.replacement.value;
    var account := RoutingAccountId(registry, c.provider, credentials);
    account.Some?
    && Conflicting(db, id, c.provider, registry[c.provider], account.value, {address},
                   if r.CreateNumber? then None else Some(r.config))
  }

  /** The addresses the request gives a key to. */
  function OwnAddresses(db: Db, r: Request): set<string>
    requires Guarded(r)
  {
    if r.CreateNumber? then (if r.address.Some? then {r.address.value} else {}) else AddressesOf(db, r.config)
  }

  lemma StaleMeansHeld(registry: Registry, db: Db, r: Request) returns (id: nat, address: string)
    requires Guarded(r) && TakesEffect(db, r) && !StillPasses(registry, db, r)
    ensures address in OwnAddresses(db, r) && Holds(registry, db, r, id, address)
  {
    var c := db.configurations[r.config];
    var credentials := if r.CreateNumber? then c.credentials else r.replacement.value;
    var account := RoutingAccountId(registry, c.provider, credentials);
    var exclude := if r.CreateNumber? then None else Some(r.config);
    assert !NoConflict(registry, db, c.provider, credentials, OwnAddresses(db, r), None, exclude);
    id :| Conflicting(db, id, c.provider, registry[c.provider], account.value, OwnAddresses(db, r), exclude);
    address := db.numbers[id].address;
  }

  /** No number outside an edited configuration held a key that a passing check approved. */
  lemma CheckedKeysWereFree(registry: Registry, seen: Db, r: Request, id: nat, address: string)
    requires Guarded(r) && Consistent(seen) && Unambiguous(registry, seen) && Passes(registry, seen, r)
    requires address in OwnAddresses(seen, r)
    ensures !Holds(registry, seen, r, id, address)
  {
    if !r.CreateNumber? && Holds(registry, seen, r, id, address) {
      var c := seen.configurations[r.config];
      if RoutingAccountId(registry, c.provider, r.replacement.value)
         == RoutingAccountId(registry, c.provider, c.credentials) {
        EditIsConsistent(seen, r.config, r.replacement.value);
        SameAccountIsFree(registry, seen, r.config, r.replacement.value);
      }
      var account := RoutingAccountId(registry, c.provider, r.replacement.value);
      assert Conflicting(seen, id, c.provider, registry[c.provider], account.value, AddressesOf(seen, r.config),
                         Some(r.config));
      assert false;
    }
  }

  ghost predicate KeysWereUnique(registry: Registry, k: Ticket) {
    Consistent(k.seen) && Unambiguous(registry, k.seen)
  }

  /** While the keys have been unambiguous throughout, every open check saw them so. */
  lemma {:induction false} ChecksSawUniqueKeys(registry: Registry, s: System, es: seq<Event>, t: nat)
    requires s.tickets == map[] && Run(registry, s, es).Some? && AlwaysUnique(registry, s, es)
    requires t in Run(registry, s, es).value.tickets
    ensures KeysWereUnique(registry, Run(registry, s, es).value.tickets[t])
    decreases |es|
  {
    if es != [] {
      EndIsUnique(registry, s, Front(es));
      if t in Run(registry, s, Front(es)).value.tickets {
        ChecksSawUniqueKeys(registry, s, Front(es), t);
      }
    }
  }

  /** Behind every stale write there is a write that came between its check and it:
      another number has come to hold the key since, or an address or, for a new
      number, the account of its own configuration has changed. */
  lemma StaleWriteMissedAnother(registry: Registry, s: System, e: Event) returns (id: nat, address: string)
    requires Inv(registry, s) && Enabled(s, e) && e.Write? && StaleWrite(registry, s, e)
    requires KeysWereUnique(registry, s.tickets[e.t])
    ensures var r, seen := s.tickets[e.t].request, s.tickets[e.t].seen;
      && Holds(registry, s.db, r, id, address) && r.config in seen.configurations
      && address in OwnAddresses(s.db, r)
      && (!Holds(registry, seen, r, id, address) || address !in OwnAddresses(seen, r))
  {
    var r, seen := s.tickets[e.t].request, s.tickets[e.t].seen;
    id, address := StaleMeansHeld(registry, s.db, r);
    if address in OwnAddresses(seen, r) {
      CheckedKeysWereFree(registry, seen, r, id, address);
    }
  }

  // ---------- It happens ----------

  lemma Then(registry: Registry, s: System, es: seq<Event>, e: Event, next: System) returns (es': seq<Event>)
    requires Run(registry, s, es).Some? && Enabled(Run(registry, s, es).value, e)
    requires Next(registry, Run(registry, s, es).value, e) == next
    ensures es' == es + [e] && Run(registry, s, es') == Some(next)
  {
    es' := es + [e];
    assert Front(es') == es && Last(es') == e;
  }

  const REGISTRY: Registry := map["provider" := "account_sid"]

  function AccountOf(org: int): Configuration {
    Configuration(org, "provider", map["account_sid" := "AC"], false)
  }

  function NewNumber(org: int, config: nat): Request {
    CreateNumber(org, config, Some("+15550100"), None, true, false, true)
  }

  lemma FirstCheckPasses(db: Db, org: int, config: nat)
    requires db.numbers == map[] && config in db.configurations && db.configurations[config] == AccountOf(org)
    ensures Passes(REGISTRY, db, NewNumber(org, config))
  {
  }

  const CONFIGURATIONS := map[0 := AccountOf(1), 1 := AccountOf(2)]
  const FIRST := PhoneNumber(1, 0, "+15550100", None, true, false)
  const SECOND := PhoneNumber(2, 1, "+15550100", None, true, false)

  lemma BothWritesLand()
    ensures var db0 := Db(CONFIGURATIONS, map[], map[], 2);
      var db1 := Db(CONFIGURATIONS, map[], map[2 := FIRST], 3);
      Written(db0, NewNumber(1, 0)) == db1
      && Written(db1, NewNumber(2, 1)) == Db(CONFIGURATIONS, map[], map[2 := FIRST, 3 := SECOND], 4)
  {
    assert !AddressTaken(Db(CONFIGURATIONS, map[], map[2 := FIRST], 3), 2, "+15550100");
  }

  lemma BothMatch()
    ensures var db := Db(CONFIGURATIONS, map[], map[2 := FIRST, 3 := SECOND], 4);
      InboundMatch(db, 2, "provider", "account_sid", "AC", "+15550100", None)
      && InboundMatch(db, 3, "provider", "account_sid", "AC", "+15550100", None)
  {
  }

  lemma BothChecksPass() returns (s: System, es: seq<Event>)
    ensures Inv(REGISTRY, s) && s == System(Db(CONFIGURATIONS, map[], map[], 2), map[])
    ensures Run(REGISTRY, s, es)
            == Some(System(s.db, map[0 := Ticket(NewNumber(1, 0), s.db), 1 := Ticket(NewNumber(2, 1), s.db)]))
  {
    var db := Db(CONFIGURATIONS, map[], map[], 2);
    s := System(db, map[]);
    FirstCheckPasses(db, 1, 0);
    FirstCheckPasses(db, 2, 1);
    var ta, tb := Ticket(NewNumber(1, 0), db), Ticket(NewNumber(2, 1), db);
    es := Then(REGISTRY, s, [], Check(0, NewNumber(1, 0)), System(db, map[0 := ta]));
    es := Then(REGISTRY, s, es, Check(1, NewNumber(2, 1)), System(db, map[0 := ta, 1 := tb]));
  }

  /** Two organizations with the same provider account add the same number: both
      checks pass before either write, both writes take effect, and an inbound call
      matches two numbers. */
  lemma RacingCreatesShareAKey() returns (s: System, es: seq<Event>)
    ensures Inv(REGISTRY, s) && Unambiguous(REGISTRY, s.db) && Run(REGISTRY, s, es).Some?
    ensures var db := Run(REGISTRY, s, es).value.db;
      InboundMatch(db, 2, "provider", "account_sid", "AC", "+15550100", None)
      && InboundMatch(db, 3, "provider", "account_sid", "AC", "+15550100", None)
  {
    s, es := BothChecksPass();
    var a, b := NewNumber(1, 0), NewNumber(2, 1);
    var ta, tb := Ticket(a, s.db), Ticket(b, s.db);
    BothWritesLand();
    BothMatch();
    assert map[0 := ta, 1 := tb] - {0} == map[1 := tb] && map[1 := tb] - {1} == map[];
    es := Then(REGISTRY, s, es, Write(0), System(Written(s.db, a), map[1 := tb]));
    es := Then(REGISTRY, s, es, Write(1), System(Written(Written(s.db, a), b), map[]));
  }
}
