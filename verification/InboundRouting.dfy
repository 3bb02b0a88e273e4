/**
 Telephony configurations, trunks and phone numbers, and the guards that keep
 inbound routing unambiguous. The routing key (provider, account id, canonical
 address) spans two tables, so no database constraint protects it: every request
 that can change a component checks first. Requests run one after another.
 */
module InboundRouting {
  import opened Common

  type Credentials = map<string, string>

  /** The credential field that holds a provider's account id; absent or "" for none. */
  type Registry = map<string, string>

  datatype Configuration = Configuration(organizationId: int, provider: string,
                                         credentials: Credentials, inactive: bool)

  datatype Trunk = Trunk(configurationId: nat, name: string)

  datatype PhoneNumber = PhoneNumber(organizationId: int, configurationId: nat, address: string,
                                     trunkId: Option<nat>, isActive: bool, isDefaultCallerId: bool)

  datatype Db = Db(configurations: map<nat, Configuration>, trunks: map<nat, Trunk>,
                   numbers: map<nat, PhoneNumber>, nextId: nat)

  function RoutingAccountId(registry: Registry, provider: string, credentials: Credentials): Option<string> {
    if provider !in registry || registry[provider] == "" then None
    else if registry[provider] !in credentials || credentials[registry[provider]] == "" then None
    else Some(credentials[registry[provider]])
  }

  // ---------- The guard ----------

  /** The numbers that already hold one of these routing keys. */
  predicate Conflicting(db: Db, id: nat, provider: string, field: string, account: string,
                        addresses: set<string>, exclude: Option<nat>)
  {
    id in db.numbers && db.numbers[id].configurationId in db.configurations
    && var c := db.configurations[db.numbers[id].configurationId];
       c.provider == provider && field in c.credentials && c.credentials[field] == account
       && db.numbers[id].address in addresses
       && Some(db.numbers[id].configurationId) != exclude
  }

  ghost predicate NoConflict(registry: Registry, db: Db, provider: string, credentials: Credentials,
                             addresses: set<string>, previous: Option<Credentials>, exclude: Option<nat>)
  {
    var account := RoutingAccountId(registry, provider, credentials);
    account.None?
    || (previous.Some? && account == RoutingAccountId(registry, provider, previous.value))
    || forall id :: !Conflicting(db, id, provider, registry[provider], account.value, addresses, exclude)
  }

  // ---------- Requests ----------

  datatype Request =
    | CreateConfiguration(org: int, provider: string, credentials: Credentials)
    | UpdateConfiguration(org: int, config: nat, replacement: Option<Credentials>)
    | SetInactive(org: int, config: nat, inactive: bool)
    | DeleteConfiguration(org: int, config: nat, usedByCampaign: bool)
    | CreateTrunk(org: int, config: nat, name: string)
    | DeleteTrunk(org: int, config: nat, id: nat)
    | CreateNumber(org: int, config: nat, address: Option<string>, trunk: Option<nat>,
                   isActive: bool, isDefault: bool, providerAccepts: bool)
    | UpdateNumber(org: int, config: nat, number: nat, trunk: Option<nat>, clearTrunk: bool, active: Option<bool>)
    | SetDefaultCaller(org: int, config: nat, number: nat)
    | DeleteNumber(org: int, config: nat, number: nat)

  datatype Response = Done | NotFound | Conflict | BadRequest

  predicate OwnsConfiguration(db: Db, org: int, config: nat) {
    config in db.configurations && db.configurations[config].organizationId == org
  }

  predicate TrunkOf(db: Db, trunk: nat, config: nat) {
    trunk in db.trunks && db.trunks[trunk].configurationId == config
  }

  predicate NumberOf(db: Db, number: nat, config: nat) {
    number in db.numbers && db.numbers[number].configurationId == config
  }

  function AttachedTo(db: Db, trunk: nat): set<nat> {
    set id | id in db.numbers && db.numbers[id].trunkId == Some(trunk)
  }

  function AddressesOf(db: Db, config: nat): set<string> {
    set id | id in db.numbers && db.numbers[id].configurationId == config :: db.numbers[id].address
  }

  function WithoutDefault(db: Db, config: nat): map<nat, PhoneNumber> {
    map id | id in db.numbers :: if db.numbers[id].configurationId == config
                                 then db.numbers[id].(isDefaultCallerId := false) else db.numbers[id]
  }

  /** The unique constraint on (organization, canonical address). */
  predicate AddressTaken(db: Db, org: int, address: string) {
    exists id :: id in db.numbers && db.numbers[id].organizationId == org && db.numbers[id].address == address
  }

  /** How the request is answered. */
  ghost function Answer(registry: Registry, db: Db, r: Request): Response {
    match r
    case CreateConfiguration(_, _, _) => Done
    case UpdateConfiguration(org, config, credentials) =>
      if !OwnsConfiguration(db, org, config) then NotFound
      else if credentials.Some?
              && !NoConflict(registry, db, db.configurations[config].provider, credentials.value,
                             AddressesOf(db, config), Some(db.configurations[config].credentials), Some(config))
      then Conflict else Done
    case SetInactive(org, config, _) => if OwnsConfiguration(db, org, config) then Done else NotFound
    case DeleteConfiguration(org, config, usedByCampaign) =>
      if !OwnsConfiguration(db, org, config) then NotFound else if usedByCampaign then Conflict else Done
    case CreateTrunk(org, config, name) =>
      if !OwnsConfiguration(db, org, config) then NotFound
      else if exists t :: TrunkOf(db, t, config) && db.trunks[t].name == name then Conflict else Done
    case DeleteTrunk(org, config, trunk) =>
      if !OwnsConfiguration(db, org, config) || !TrunkOf(db, trunk, config) then NotFound
      else if exists id :: id in db.numbers && db.numbers[id].trunkId == Some(trunk) then Conflict else Done
    case CreateNumber(org, config, address, trunk, _, _, providerAccepts) =>
      if !OwnsConfiguration(db, org, config) then NotFound
      else if trunk.Some? && !TrunkOf(db, trunk.value, config) then NotFound
      else if address.None? then BadRequest
      else if !NoConflict(registry, db, db.configurations[config].provider, db.configurations[config].credentials,
                          {address.value}, None, None) then Conflict
      else if !providerAccepts then BadRequest
      else if AddressTaken(db, org, address.value) then Conflict else Done
    case UpdateNumber(org, config, number, trunk, _, _) =>
      if !OwnsConfiguration(db, org, config) || !NumberOf(db, number, config) then NotFound
      else if trunk.Some? && !TrunkOf(db, trunk.value, config) then NotFound else Done
    case SetDefaultCaller(org, config, number) =>
      if OwnsConfiguration(db, org, config) && NumberOf(db, number, config) then Done else NotFound
    case DeleteNumber(org, config, number) =>
      if OwnsConfiguration(db, org, config) && NumberOf(db, number, config) then Done else NotFound
  }

  /** The tables after a request; a request not answered Done changes nothing. */
  ghost function Apply(registry: Registry, db: Db, r: Request): Db {
    if Answer(registry, db, r) != Done then db
    else match r
      case CreateConfiguration(org, provider, credentials) =>
        db.(configurations := db.configurations[db.nextId := Configuration(org, provider, credentials, false)],
            nextId := db.nextId + 1)
      case UpdateConfiguration(_, config, credentials) =>
        if credentials.None? then db
        else db.(configurations :=
                   db.configurations[config := db.configurations[config].(credentials := credentials.value)])
      case SetInactive(_, config, inactive) =>
        db.(configurations := db.configurations[config := db.configurations[config].(inactive := inactive)])
      case DeleteConfiguration(_, config, _) =>
        // cascades to numbers and trunks; the trunk reference of any other number is set to null
        db.(configurations := db.configurations - {config},
            trunks := map t | t in db.trunks && db.trunks[t].configurationId != config :: db.trunks[t],
            numbers := map id | id in db.numbers && db.numbers[id].configurationId != config ::
              Detached(db.numbers[id], set t | t in db.trunks && db.trunks[t].configurationId == config))
      case CreateTrunk(_, config, name) =>
        db.(trunks := db.trunks[db.nextId := Trunk(config, name)], nextId := db.nextId + 1)
      case DeleteTrunk(_, _, trunk) =>
        db.(trunks := db.trunks - {trunk},
            numbers := map id | id in db.numbers :: Detached(db.numbers[id], {trunk}))
      case CreateNumber(org, config, address, trunk, isActive, isDefault, _) =>
        var numbers := if isDefault then WithoutDefault(db, config) else db.numbers;
        db.(numbers := numbers[db.nextId := PhoneNumber(org, config, address.value, trunk, isActive, isDefault)],
            nextId := db.nextId + 1)
      case UpdateNumber(_, _, number, trunk, clearTrunk, isActive) =>
        var n := db.numbers[number];
        db.(numbers := db.numbers[number := n.(
              trunkId := if trunk.Some? then trunk else if clearTrunk then None else n.trunkId,
              isActive := if isActive.Some? then isActive.value else n.isActive)])
      case SetDefaultCaller(_, config, number) =>
        db.(numbers := WithoutDefault(db, config)[number := db.numbers[number].(isDefaultCallerId := true)])
      case DeleteNumber(_, _, number) => db.(numbers := db.numbers - {number})
  }

  /** ON DELETE SET NULL for the deleted trunks. */
  function Detached(n: PhoneNumber, deleted: set<nat>): PhoneNumber {
    if n.trunkId.Some? && n.trunkId.value in deleted then n.(trunkId := None) else n
  }

  // ---------- The invariants ----------

  datatype RoutingKey = RoutingKey(provider: string, account: string, address: string)

  function KeyOf(registry: Registry, db: Db, id: nat): Option<RoutingKey>
    requires id in db.numbers && db.numbers[id].configurationId in db.configurations
  {
    var c := db.configurations[db.numbers[id].configurationId];
    var account := RoutingAccountId(registry, c.provider, c.credentials);
    if account.None? then None else Some(RoutingKey(c.provider, account.value, db.numbers[id].address))
  }

  /** References resolve, ids are serial, and the table constraints hold. */
  ghost predicate Consistent(db: Db) {
    && (forall id :: id in db.configurations ==> id < db.nextId)
    && (forall t :: t in db.trunks ==> t < db.nextId && db.trunks[t].configurationId in db.configurations)
    && (forall id :: id in db.numbers ==>
          id < db.nextId && db.numbers[id].configurationId in db.configurations
          && db.numbers[id].organizationId == db.configurations[db.numbers[id].configurationId].organizationId)
    && (forall i, j :: i in db.numbers && j in db.numbers && i != j ==>
          db.numbers[i].organizationId != db.numbers[j].organizationId
          || db.numbers[i].address != db.numbers[j].address)
  }

  /** No two numbers share a routing key. */
  ghost predicate Unambiguous(registry: Registry, db: Db)
    requires Consistent(db)
  {
    forall i, j :: i in db.numbers && j in db.numbers && i != j && KeyOf(registry, db, i).Some? ==>
      KeyOf(registry, db, i) != KeyOf(registry, db, j)
  }

  /** A number dials out only over a trunk of its own configuration. */
  ghost predicate OwnTrunks(db: Db) {
    forall id :: id in db.numbers && db.numbers[id].trunkId.Some? ==>
      TrunkOf(db, db.numbers[id].trunkId.value, db.numbers[id].configurationId)
  }

  ghost predicate OneDefault(db: Db) {
    forall i, j :: i in db.numbers && j in db.numbers && i != j ==>
      !db.numbers[i].isDefaultCallerId || !db.numbers[j].isDefaultCallerId
      || db.numbers[i].configurationId != db.numbers[j].configurationId
  }

  ghost predicate Inv(registry: Registry, db: Db) {
    Consistent(db) && Unambiguous(registry, db) && OwnTrunks(db) && OneDefault(db)
  }

  /** Every number of `db'` is one of `db`, with the same address and configuration. */
  ghost predicate NoNewNumbers(db: Db, db': Db) {
    forall id :: id in db'.numbers ==>
      id in db.numbers
      && db'.numbers[id].organizationId == db.numbers[id].organizationId
      && db'.numbers[id].configurationId == db.numbers[id].configurationId
      && db'.numbers[id].address == db.numbers[id].address
  }

  lemma NoNewNumbersIsConsistent(db: Db, db': Db)
    requires Consistent(db) && NoNewNumbers(db, db') && db.nextId <= db'.nextId
    requires forall id :: id in db'.configurations ==> id < db'.nextId
    requires forall t :: t in db'.trunks ==> t < db'.nextId && db'.trunks[t].configurationId in db'.configurations
    requires forall id :: id in db'.numbers ==> KeepsOwner(db, db', db.numbers[id].configurationId)
    ensures Consistent(db')
  {
  }

  lemma RequestKeepsConsistent(registry: Registry, db: Db, r: Request)
    requires Consistent(db)
    ensures Consistent(Apply(registry, db, r))
  {
    if Answer(registry, db, r) == Done {
      if r.CreateNumber? {
        CreateKeepsConsistent(registry, db, r);
      } else {
        OthersAddNoNumbers(registry, db, r);
        ConfigurationsSurvive(registry, db, r);
        NoNewNumbersIsConsistent(db, Apply(registry, db, r));
      }
    }
  }

  lemma OthersAddNoNumbers(registry: Registry, db: Db, r: Request)
    requires Consistent(db) && !r.CreateNumber?
    ensures NoNewNumbers(db, Apply(registry, db, r))
  {
  }

  predicate KeepsOwner(db: Db, db': Db, config: nat) {
    config in db.configurations && config in db'.configurations
    && db'.configurations[config].organizationId == db.configurations[config].organizationId
  }

  lemma ConfigurationsSurvive(registry: Registry, db: Db, r: Request)
    requires Consistent(db) && !r.CreateNumber?
    ensures var db' := Apply(registry, db, r);
      && db.nextId <= db'.nextId && (forall id :: id in db'.configurations ==> id < db'.nextId)
      && (forall t :: t in db'.trunks ==> t < db'.nextId && db'.trunks[t].configurationId in db'.configurations)
      && (forall id :: id in db'.numbers ==> id in db.numbers && KeepsOwner(db, db', db.numbers[id].configurationId))
  {
  }

  /** A number at a new address of its organization breaks no reference and no constraint. */
  lemma AddingIsConsistent(db: Db, db': Db, org: int, config: nat, address: string)
    requires Consistent(db) && AddsNumber(db, db', config, address) && OwnsConfiguration(db, org, config)
    requires db'.trunks == db.trunks && db'.nextId == db.nextId + 1
    requires forall id :: id in db.numbers ==> db'.numbers[id].organizationId == db.numbers[id].organizationId
    requires db'.numbers[db.nextId].organizationId == org && !AddressTaken(db, org, address)
    ensures Consistent(db')
  {
    forall id | id in db.numbers
      ensures db.numbers[id].organizationId != org || db.numbers[id].address != address
    {}
  }

  lemma CreateKeepsConsistent(registry: Registry, db: Db, r: Request)
    requires Consistent(db) && r.CreateNumber? && Answer(registry, db, r) == Done
    ensures Consistent(Apply(registry, db, r))
  {
    CreateAddsNumber(registry, db, r);
    AddingIsConsistent(db, Apply(registry, db, r), r.org, r.config, r.address.value);
  }

  lemma RequestKeepsOwnTrunks(registry: Registry, db: Db, r: Request)
    requires Consistent(db) && OwnTrunks(db)
    ensures OwnTrunks(Apply(registry, db, r))
  {
  }

  lemma RequestKeepsOneDefault(registry: Registry, db: Db, r: Request)
    requires Consistent(db) && OneDefault(db)
    ensures OneDefault(Apply(registry, db, r))
  {
    if Answer(registry, db, r) == Done && (r.CreateNumber? || r.SetDefaultCaller?) {
      ChoiceKeepsOneDefault(registry, db, r);
    }
  }

  lemma ChoiceKeepsOneDefault(registry: Registry, db: Db, r: Request)
    requires Consistent(db) && OneDefault(db) && Answer(registry, db, r) == Done
    requires r.CreateNumber? || r.SetDefaultCaller?
    ensures OneDefault(Apply(registry, db, r))
  {
    var numbers := Apply(registry, db, r).numbers;
    var chosen := if r.CreateNumber? then db.nextId else r.number;
    forall id | id in numbers && id != chosen
      ensures id in db.numbers && numbers[id].configurationId == db.numbers[id].configurationId
      ensures numbers[id].isDefaultCallerId ==> db.numbers[id].isDefaultCallerId
      ensures numbers[id].isDefaultCallerId && numbers[chosen].isDefaultCallerId ==>
        numbers[id].configurationId != r.config
    {}
  }

  // ---------- The two writes that give numbers a key ----------

  /** `db'` has one more number, of configuration `config`; the others keep their keys. */
  ghost predicate AddsNumber(db: Db, db': Db, config: nat, address: string) {
    && config in db.configurations && db'.configurations == db.configurations
    && db.nextId !in db.numbers && db'.numbers.Keys == db.numbers.Keys + {db.nextId}
    && (forall id :: id in db.numbers ==>
          db'.numbers[id].configurationId == db.numbers[id].configurationId
          && db'.numbers[id].address == db.numbers[id].address)
    && db'.numbers[db.nextId].configurationId == config && db'.numbers[db.nextId].address == address
  }

  /** The guard asked of a new number. */
  ghost predicate AddressIsFree(registry: Registry, db: Db, config: nat, address: string)
    requires config in db.configurations
  {
    var c := db.configurations[config];
    NoConflict(registry, db, c.provider, c.credentials, {address}, None, None)
  }

  lemma OtherKeysStay(registry: Registry, db: Db, db': Db, config: nat, address: string, id: nat)
    requires Consistent(db) && Consistent(db') && AddsNumber(db, db', config, address) && id in db.numbers
    ensures id in db'.numbers && KeyOf(registry, db', id) == KeyOf(registry, db, id)
  {
  }

  lemma SharedKeyIsConflict(registry: Registry, db: Db, db': Db, config: nat, address: string, id: nat)
    requires Consistent(db) && Consistent(db') && AddsNumber(db, db', config, address) && id in db.numbers
    ensures var c := db.configurations[config];
      var account := RoutingAccountId(registry, c.provider, c.credentials);
      account.Some? && Conflicting(db, id, c.provider, registry[c.provider], account.value, {address}, None)
      <==> KeyOf(registry, db', db.nextId).Some? && KeyOf(registry, db, id) == KeyOf(registry, db', db.nextId)
  {
  }

  lemma FreeAddressIsUnambiguous(registry: Registry, db: Db, db': Db, config: nat, address: string)
    requires Consistent(db) && Unambiguous(registry, db) && Consistent(db') && AddsNumber(db, db', config, address)
    requires AddressIsFree(registry, db, config, address)
    ensures Unambiguous(registry, db')
  {
    forall id | id in db.numbers
      ensures id in db'.numbers && KeyOf(registry, db', id) == KeyOf(registry, db, id)
      ensures KeyOf(registry, db', db.nextId).Some? ==> KeyOf(registry, db', id) != KeyOf(registry, db', db.nextId)
    {
      OtherKeysStay(registry, db, db', config, address, id);
      SharedKeyIsConflict(registry, db, db', config, address, id);
    }
  }

  /** Adding a number keeps the routing keys unambiguous exactly when the guard holds. */
  lemma AddingIsSafeExactlyWhenFree(registry: Registry, db: Db, db': Db, config: nat, address: string)
    requires Consistent(db) && Unambiguous(registry, db) && Consistent(db') && AddsNumber(db, db', config, address)
    ensures Unambiguous(registry, db') <==> AddressIsFree(registry, db, config, address)
  {
    if AddressIsFree(registry, db, config, address) {
      FreeAddressIsUnambiguous(registry, db, db', config, address);
    } else {
      var c := db.configurations[config];
      var account := RoutingAccountId(registry, c.provider, c.credentials);
      var id :| Conflicting(db, id, c.provider, registry[c.provider], account.value, {address}, None);
      OtherKeysStay(registry, db, db', config, address, id);
      SharedKeyIsConflict(registry, db, db', config, address, id);
    }
  }

  function WithCredentials(db: Db, config: nat, credentials: Credentials): Db
    requires config in db.configurations
  {
    db.(configurations := db.configurations[config := db.configurations[config].(credentials := credentials)])
  }

  /** The guard asked of a configuration edit, without its shortcut for an account
      that stays the same. */
  ghost predicate AddressesAreFree(registry: Registry, db: Db, config: nat, credentials: Credentials)
    requires config in db.configurations
  {
    NoConflict(registry, db, db.configurations[config].provider, credentials, AddressesOf(db, config), None,
               Some(config))
  }

  /** After an edit a number outside the configuration shares a number's key exactly
      when it conflicts at that address. */
  lemma SharedKeyAfterEdit(registry: Registry, db: Db, config: nat, credentials: Credentials, own: nat, other: nat)
    requires Consistent(db) && config in db.configurations && own in db.numbers && other in db.numbers
    requires db.numbers[own].configurationId == config && db.numbers[other].configurationId != config
    requires Consistent(WithCredentials(db, config, credentials))
    ensures var db' := WithCredentials(db, config, credentials);
      var c := db.configurations[config];
      var account := RoutingAccountId(registry, c.provider, credentials);
      account.Some? && Conflicting(db, other, c.provider, registry[c.provider], account.value,
                                   {db.numbers[own].address}, Some(config))
      <==> KeyOf(registry, db', own).Some? && KeyOf(registry, db', other) == KeyOf(registry, db', own)
  {
  }

  lemma EditMovesOwnKeysOnly(registry: Registry, db: Db, config: nat, credentials: Credentials, id: nat)
    requires Consistent(db) && config in db.configurations && id in db.numbers
    requires Consistent(WithCredentials(db, config, credentials))
    ensures var db' := WithCredentials(db, config, credentials);
      db.numbers[id].configurationId != config ==> KeyOf(registry, db', id) == KeyOf(registry, db, id)
  {
  }

  lemma EditIsConsistent(db: Db, config: nat, credentials: Credentials)
    requires Consistent(db) && config in db.configurations
    ensures Consistent(WithCredentials(db, config, credentials))
  {
  }

  lemma FreeEditIsUnambiguous(registry: Registry, db: Db, config: nat, credentials: Credentials, i: nat, j: nat)
    requires Consistent(db) && Unambiguous(registry, db) && config in db.configurations
    requires Consistent(WithCredentials(db, config, credentials)) && AddressesAreFree(registry, db, config, credentials)
    requires i in db.numbers && j in db.numbers && i != j
    requires KeyOf(registry, WithCredentials(db, config, credentials), i).Some?
    ensures var db' := WithCredentials(db, config, credentials);
      KeyOf(registry, db', i) != KeyOf(registry, db', j)
  {
    EditMovesOwnKeysOnly(registry, db, config, credentials, i);
    EditMovesOwnKeysOnly(registry, db, config, credentials, j);
    var mine, theirs := db.numbers[i].configurationId == config, db.numbers[j].configurationId == config;
    if mine != theirs {
      var own, other := if mine then i else j, if mine then j else i;
      assert db.numbers[own].address in AddressesOf(db, config);
      var provider := db.configurations[config].provider;
      var account := RoutingAccountId(registry, provider, credentials);
      assert account.Some? ==> !Conflicting(db, other, provider, registry[provider], account.value,
                                            AddressesOf(db, config), Some(config));
      SharedKeyAfterEdit(registry, db, config, credentials, own, other);
    } else if mine {
      assert db.numbers[i].organizationId == db.numbers[j].organizationId;
      assert db.numbers[i].address != db.numbers[j].address;
    } else {
      assert KeyOf(registry, db, i) != KeyOf(registry, db, j);
    }
  }

  /** Editing a configuration keeps the routing keys unambiguous exactly when the
      guard without its shortcut holds. */
  lemma EditIsSafeExactlyWhenFree(registry: Registry, db: Db, config: nat, credentials: Credentials)
    requires Consistent(db) && Unambiguous(registry, db) && config in db.configurations
    requires Consistent(WithCredentials(db, config, credentials))
    ensures Unambiguous(registry, WithCredentials(db, config, credentials))
            <==> AddressesAreFree(registry, db, config, credentials)
  {
    var db' := WithCredentials(db, config, credentials);
    if AddressesAreFree(registry, db, config, credentials) {
      forall i, j | i in db.numbers && j in db.numbers && i != j && KeyOf(registry, db', i).Some?
        ensures KeyOf(registry, db', i) != KeyOf(registry, db', j)
      {
        FreeEditIsUnambiguous(registry, db, config, credentials, i, j);
      }
    } else {
      var c := db.configurations[config];
      var account := RoutingAccountId(registry, c.provider, credentials);
      var other :| Conflicting(db, other, c.provider, registry[c.provider], account.value, AddressesOf(db, config),
                               Some(config));
      var own :| own in db.numbers && db.numbers[own].configurationId == config
        && db.numbers[own].address == db.numbers[other].address;
      SharedKeyAfterEdit(registry, db, config, credentials, own, other);
    }
  }

  /** An edit that keeps the account moves no key at all. */
  lemma SameAccountIsFree(registry: Registry, db: Db, config: nat, credentials: Credentials)
    requires Consistent(db) && Unambiguous(registry, db) && config in db.configurations
    requires Consistent(WithCredentials(db, config, credentials))
    requires var c := db.configurations[config];
      RoutingAccountId(registry, c.provider, credentials) == RoutingAccountId(registry, c.provider, c.credentials)
    ensures AddressesAreFree(registry, db, config, credentials)
  {
    var db' := WithCredentials(db, config, credentials);
    forall id | id in db.numbers ensures KeyOf(registry, db', id) == KeyOf(registry, db, id) {}
    EditIsSafeExactlyWhenFree(registry, db, config, credentials);
  }

  lemma UpdateKeepsUnambiguous(registry: Registry, db: Db, org: int, config: nat, credentials: Credentials)
    requires Consistent(db) && Unambiguous(registry, db)
    requires Answer(registry, db, UpdateConfiguration(org, config, Some(credentials))) == Done
    ensures var db' := Apply(registry, db, UpdateConfiguration(org, config, Some(credentials)));
      Consistent(db') && Unambiguous(registry, db')
  {
    EditIsConsistent(db, config, credentials);
    var c := db.configurations[config];
    if RoutingAccountId(registry, c.provider, credentials) == RoutingAccountId(registry, c.provider, c.credentials) {
      SameAccountIsFree(registry, db, config, credentials);
    }
    EditIsSafeExactlyWhenFree(registry, db, config, credentials);
  }

  lemma CreateAddsNumber(registry: Registry, db: Db, r: Request)
    requires Consistent(db) && r.CreateNumber? && Answer(registry, db, r) == Done
    ensures AddsNumber(db, Apply(registry, db, r), r.config, r.address.value)
  {
  }

  lemma CreateKeepsUnambiguous(registry: Registry, db: Db, r: Request)
    requires Consistent(db) && Unambiguous(registry, db)
    requires r.CreateNumber? && Answer(registry, db, r) == Done
    requires Consistent(Apply(registry, db, r))
    ensures Unambiguous(registry, Apply(registry, db, r))
  {
    CreateAddsNumber(registry, db, r);
    AddingIsSafeExactlyWhenFree(registry, db, Apply(registry, db, r), r.config, r.address.value);
  }

  /** Every request keeps every invariant. */
  lemma RequestKeepsInvariant(registry: Registry, db: Db, r: Request)
    requires Inv(registry, db)
    ensures Inv(registry, Apply(registry, db, r))
  {
    RequestKeepsConsistent(registry, db, r);
    RequestKeepsOwnTrunks(registry, db, r);
    RequestKeepsOneDefault(registry, db, r);
    if Answer(registry, db, r) == Done {
      if r.CreateNumber? {
        CreateKeepsUnambiguous(registry, db, r);
      } else if r.UpdateConfiguration? && r.replacement.Some? {
        UpdateKeepsUnambiguous(registry, db, r.org, r.config, r.replacement.value);
      } else {
        OthersKeepKeys(registry, db, r);
      }
    }
  }

  lemma OthersKeepKey(registry: Registry, db: Db, r: Request, id: nat)
    requires Consistent(db) && Consistent(Apply(registry, db, r)) && id in Apply(registry, db, r).numbers
    requires !r.CreateNumber? && !(r.UpdateConfiguration? && r.replacement.Some?)
    ensures id in db.numbers && KeyOf(registry, Apply(registry, db, r), id) == KeyOf(registry, db, id)
  {
    OthersAddNoNumbers(registry, db, r);
    OthersKeepAccounts(registry, db, r, db.numbers[id].configurationId);
  }

  lemma OthersKeepAccounts(registry: Registry, db: Db, r: Request, config: nat)
    requires config in db.configurations && config < db.nextId
    requires !r.CreateNumber? && !(r.UpdateConfiguration? && r.replacement.Some?)
    requires config in Apply(registry, db, r).configurations
    ensures var c := Apply(registry, db, r).configurations[config];
      c.provider == db.configurations[config].provider && c.credentials == db.configurations[config].credentials
  {
  }

  lemma OthersKeepKeys(registry: Registry, db: Db, r: Request)
    requires Consistent(db) && Consistent(Apply(registry, db, r)) && Unambiguous(registry, db)
    requires !r.CreateNumber? && !(r.UpdateConfiguration? && r.replacement.Some?)
    ensures Unambiguous(registry, Apply(registry, db, r))
  {
    var db' := Apply(registry, db, r);
    forall id | id in db'.numbers
      ensures id in db.numbers && KeyOf(registry, db', id) == KeyOf(registry, db, id)
    {
      OthersKeepKey(registry, db, r, id);
    }
  }

  ghost function Serve(registry: Registry, db: Db, rs: seq<Request>): Db
    decreases |rs|
  {
    if rs == [] then db else Apply(registry, Serve(registry, db, Front(rs)), Last(rs))
  }

  lemma {:induction false} ServingKeepsInvariant(registry: Registry, db: Db, rs: seq<Request>)
    requires Inv(registry, db)
    ensures Inv(registry, Serve(registry, db, rs))
    decreases |rs|
  {
    if rs != [] {
      ServingKeepsInvariant(registry, db, Front(rs));
      RequestKeepsInvariant(registry, Serve(registry, db, Front(rs)), Last(rs));
    }
  }

  // ---------- Inbound lookup and trunk deletion ----------

  /** The rows that `find_inbound_route_by_account` matches. */
  predicate InboundMatch(db: Db, id: nat, provider: string, field: string, account: string, address: string,
                         org: Option<int>)
  {
    id in db.numbers && db.numbers[id].configurationId in db.configurations
    && var c := db.configurations[db.numbers[id].configurationId];
       c.provider == provider && field in c.credentials && c.credentials[field] == account
       && db.numbers[id].address == address && db.numbers[id].isActive && !c.inactive
       && (org.Some? ==> c.organizationId == org.value)
  }

  /** After any sequence of requests an inbound call matches at most one number. */
  lemma InboundRouteIsUnique(registry: Registry, db: Db, rs: seq<Request>, provider: string, account: string,
                             address: string, org: Option<int>, i: nat, j: nat)
    requires Inv(registry, db) && provider in registry && registry[provider] != "" && account != ""
    requires InboundMatch(Serve(registry, db, rs), i, provider, registry[provider], account, address, org)
    requires InboundMatch(Serve(registry, db, rs), j, provider, registry[provider], account, address, org)
    ensures i == j
  {
    ServingKeepsInvariant(registry, db, rs);
    var now := Serve(registry, db, rs);
    assert KeyOf(registry, now, i) == Some(RoutingKey(provider, account, address));
    assert KeyOf(registry, now, j) == KeyOf(registry, now, i);
  }

  /** Deleting a trunk never unassigns a number: it leaves the numbers exactly as they were. */
  lemma TrunkDeletionKeepsNumbers(registry: Registry, db: Db, r: Request)
    requires Inv(registry, db) && r.DeleteTrunk?
    ensures Apply(registry, db, r).numbers == db.numbers
  {
  }

  /** Nor does deleting a configuration unassign a number of another one. */
  lemma DeletionsNeverUnassign(registry: Registry, db: Db, r: Request, id: nat)
    requires Inv(registry, db) && (r.DeleteTrunk? || r.DeleteConfiguration?)
    requires id in db.numbers && id in Apply(registry, db, r).numbers
    ensures Apply(registry, db, r).numbers[id] == db.numbers[id]
  {
    if r.DeleteTrunk? {
      TrunkDeletionKeepsNumbers(registry, db, r);
    } else {
      assert OwnTrunks(db);
    }
  }

  /** A request is refused for ambiguity exactly when letting it through would make
      two numbers share a key that is not shared already. */
  lemma CreateRefusedExactlyWhenAmbiguous(registry: Registry, db: Db, r: Request, db': Db)
    requires Inv(registry, db) && r.CreateNumber? && OwnsConfiguration(db, r.org, r.config) && r.address.Some?
    requires r.trunk.Some? ==> TrunkOf(db, r.trunk.value, r.config)
    requires r.providerAccepts && !AddressTaken(db, r.org, r.address.value)
    requires ForcedInsert(db, r, db')
    ensures Consistent(db')
    ensures Answer(registry, db, r) == Conflict <==> !Unambiguous(registry, db')
  {
    ForcedInsertIsConsistent(db, r, db');
    AddingIsSafeExactlyWhenFree(registry, db, db', r.config, r.address.value);
  }

  /** An edit of a configuration is refused for ambiguity exactly when letting it through
      would make two numbers share a key. */
  lemma EditRefusedExactlyWhenAmbiguous(registry: Registry, db: Db, org: int, config: nat, credentials: Credentials)
    requires Inv(registry, db) && OwnsConfiguration(db, org, config)
    ensures Consistent(WithCredentials(db, config, credentials))
    ensures Answer(registry, db, UpdateConfiguration(org, config, Some(credentials))) == Conflict
            <==> !Unambiguous(registry, WithCredentials(db, config, credentials))
  {
    EditIsConsistent(db, config, credentials);
    var c := db.configurations[config];
    if RoutingAccountId(registry, c.provider, credentials) == RoutingAccountId(registry, c.provider, c.credentials) {
      SameAccountIsFree(registry, db, config, credentials);
    }
    EditIsSafeExactlyWhenFree(registry, db, config, credentials);
  }

  /** The requests without a guard or a cascade touch one row, and only for its owner. */
  lemma PlainRequests(registry: Registry, db: Db, org: int, config: nat, number: nat, inactive: bool, name: string,
                      provider: string, credentials: Credentials)
    requires Consistent(db)
    ensures Apply(registry, db, CreateConfiguration(org, provider, credentials))
            == db.(configurations := db.configurations[db.nextId := Configuration(org, provider, credentials, false)],
                   nextId := db.nextId + 1)
    ensures var owned := config in db.configurations && db.configurations[config].organizationId == org;
      && Apply(registry, db, SetInactive(org, config, inactive))
         == (if owned then db.(configurations :=
               db.configurations[config := db.configurations[config].(inactive := inactive)]) else db)
      && Apply(registry, db, DeleteNumber(org, config, number))
         == (if owned && number in db.numbers && db.numbers[number].configurationId == config
             then db.(numbers := db.numbers - {number}) else db)
      && Apply(registry, db, CreateTrunk(org, config, name))
         == (if owned && (forall t :: t in db.trunks ==> db.trunks[t] != Trunk(config, name))
             then db.(trunks := db.trunks[db.nextId := Trunk(config, name)], nextId := db.nextId + 1) else db)
  {
  }

  /** `db'` is `db` with the requested number inserted, whatever the guard says. */
  ghost predicate ForcedInsert(db: Db, r: Request, db': Db) {
    && r.CreateNumber? && OwnsConfiguration(db, r.org, r.config) && r.address.Some?
    && db'.configurations == db.configurations && db'.nextId == db.nextId + 1 && db'.trunks == db.trunks
    && db'.numbers == db.numbers[db.nextId :=
         PhoneNumber(r.org, r.config, r.address.value, r.trunk, r.isActive, r.isDefault)]
  }

  lemma ForcedInsertIsConsistent(db: Db, r: Request, db': Db)
    requires Consistent(db) && ForcedInsert(db, r, db') && !AddressTaken(db, r.org, r.address.value)
    ensures Consistent(db') && AddsNumber(db, db', r.config, r.address.value)
  {
    forall id | id in db.numbers
      ensures db.numbers[id].organizationId != r.org || db.numbers[id].address != r.address.value
    {}
  }

  // ---------- The handlers and the client ----------

  class TelephonyClient {
    const registry: Registry
    var configurations: map<nat, Configuration>
    var trunks: map<nat, Trunk>
    var numbers: map<nat, PhoneNumber>
    var nextId: nat

    function Tables(): Db
      reads this
    {
      Db(configurations, trunks, numbers, nextId)
    }

    method FindInboundRoutingConflicts(provider: string, field: string, account: string,
                                       addresses: set<string>, exclude: Option<nat>)
      returns (rows: set<nat>)
      ensures provider != "" && field != "" && account != "" ==>
        forall id :: id in rows <==> Conflicting(Tables(), id, provider, field, account, addresses, exclude)
      ensures forall id :: id in rows ==>
        && id in numbers && numbers[id].address in addresses && exclude != Some(numbers[id].configurationId)
        && numbers[id].configurationId in configurations
        && configurations[numbers[id].configurationId].provider == provider
        && field in configurations[numbers[id].configurationId].credentials
        && configurations[numbers[id].configurationId].credentials[field] == account
      ensures provider == "" || field == "" || account == "" ==> rows == {}
    {
      if provider == "" || field == "" || account == "" || addresses == {} {
        return {};
      }
      rows := set id | id in numbers && Conflicting(Tables(), id, provider, field, account, addresses, exclude);
    }

    /** True when the save may go ahead. */
    method AssertNoInboundRoutingConflict(provider: string, credentials: Credentials, addresses: set<string>,
                                          previous: Option<Credentials>, exclude: Option<nat>)
      returns (ok: bool)
      requires "" !in registry
      ensures ok <==> NoConflict(registry, Tables(), provider, credentials, addresses, previous, exclude)
    {
      var account := RoutingAccountId(registry, provider, credentials);
      if account.None? {
        return true;
      }
      if previous.Some? && account == RoutingAccountId(registry, provider, previous.value) {
        return true;
      }
      var conflicts := FindInboundRoutingConflicts(provider, registry[provider], account.value, addresses, exclude);
      return conflicts == {};
    }

    method UpdateTelephonyConfiguration(org: int, config: nat, replacement: Option<Credentials>)
      returns (response: Response)
      requires "" !in registry
      modifies this
      ensures response == Answer(registry, old(Tables()), UpdateConfiguration(org, config, replacement))
      ensures Tables() == Apply(registry, old(Tables()), UpdateConfiguration(org, config, replacement))
      ensures response == NotFound <==>
        config !in old(configurations) || old(configurations)[config].organizationId != org
      ensures response in {Done, NotFound, Conflict} && numbers == old(numbers) && trunks == old(trunks)
      ensures configurations == if response == Done && replacement.Some?
                                then old(configurations)[config :=
                                       old(configurations)[config].(credentials := replacement.value)]
                                else old(configurations)
    {
      if config !in configurations || configurations[config].organizationId != org {
        return NotFound;
      }
      if replacement.Some? {
        var existing := configurations[config];
        var ok := AssertNoInboundRoutingConflict(
          existing.provider, replacement.value, AddressesOf(Tables(), config),
          Some(existing.credentials), Some(config));
        if !ok {
          return Conflict;
        }
        configurations := configurations[config := existing.(credentials := replacement.value)];
      }
      return Done;
    }

    method CountPhoneNumbersForTrunk(trunk: nat) returns (count: nat)
      ensures count == |AttachedTo(Tables(), trunk)|
    {
      var attached := set id | id in numbers && numbers[id].trunkId == Some(trunk);
      assert attached == AttachedTo(Tables(), trunk);
      count := |attached|;
    }

    method DeleteTelephonyTrunk(org: int, config: nat, trunk: nat) returns (response: Response)
      modifies this
      ensures response == Answer(registry, old(Tables()), DeleteTrunk(org, config, trunk))
      ensures Tables() == Apply(registry, old(Tables()), DeleteTrunk(org, config, trunk))
      ensures response == NotFound <==>
        || config !in configurations || configurations[config].organizationId != org
        || trunk !in old(trunks) || old(trunks)[trunk].configurationId != config
      ensures response == Conflict <==>
        response != NotFound && exists id :: id in old(numbers) && old(numbers)[id].trunkId == Some(trunk)
      ensures response in {Done, NotFound, Conflict} && configurations == old(configurations)
      ensures numbers == old(numbers) && trunks == if response == Done then old(trunks) - {trunk} else old(trunks)
    {
      if config !in configurations || configurations[config].organizationId != org {
        return NotFound;
      }
      if trunk !in trunks || trunks[trunk].configurationId != config {
        return NotFound;
      }
      var attached := CountPhoneNumbersForTrunk(trunk);
      if attached > 0 {
        var id :| id in AttachedTo(Tables(), trunk);
        return Conflict;
      }
      assert forall id :: id in numbers && numbers[id].trunkId == Some(trunk) ==> id in AttachedTo(Tables(), trunk);
      trunks := trunks - {trunk};
      numbers := map id | id in numbers :: Detached(numbers[id], {trunk});
      return Done;
    }

    /** Deleting a configuration cascades to its trunks and numbers. */
    method DeleteTelephonyConfiguration(org: int, config: nat, usedByCampaign: bool) returns (response: Response)
      modifies this
      ensures response == Answer(registry, old(Tables()), DeleteConfiguration(org, config, usedByCampaign))
      ensures Tables() == Apply(registry, old(Tables()), DeleteConfiguration(org, config, usedByCampaign))
      ensures response == NotFound <==>
        config !in old(configurations) || old(configurations)[config].organizationId != org
      ensures response == Conflict <==> response != NotFound && usedByCampaign
      ensures response in {Done, NotFound, Conflict} && (response != Done ==> Tables() == old(Tables()))
      ensures response == Done ==> configurations == old(configurations) - {config}
      ensures response == Done ==> forall t :: t in old(trunks) ==>
        if old(trunks)[t].configurationId == config then t !in trunks else t in trunks && trunks[t] == old(trunks)[t]
      ensures response == Done ==> forall id :: id in old(numbers) ==>
        (id in numbers <==> old(numbers)[id].configurationId != config)
    {
      if config !in configurations || configurations[config].organizationId != org {
        return NotFound;
      }
      if usedByCampaign {
        return Conflict;
      }
      var removed := set t | t in trunks && trunks[t].configurationId == config;
      numbers := map id | id in numbers && numbers[id].configurationId != config :: Detached(numbers[id], removed);
      trunks := map t | t in trunks && trunks[t].configurationId != config :: trunks[t];
      configurations := configurations - {config};
      return Done;
    }

    method ClearDefaultCallerId(config: nat)
      modifies this`numbers
      ensures numbers == WithoutDefault(old(Tables()), config)
    {
      numbers := map id | id in numbers :: if numbers[id].configurationId == config && numbers[id].isDefaultCallerId
                                           then numbers[id].(isDefaultCallerId := false) else numbers[id];
    }

    method CreatePhoneNumber(org: int, config: nat, address: Option<string>, trunk: Option<nat>,
                             isActive: bool, isDefault: bool, providerAccepts: bool)
      returns (response: Response)
      requires "" !in registry
      modifies this
      ensures var r := CreateNumber(org, config, address, trunk, isActive, isDefault, providerAccepts);
        response == Answer(registry, old(Tables()), r) && Tables() == Apply(registry, old(Tables()), r)
      ensures response == NotFound <==>
        || config !in configurations || configurations[config].organizationId != org
        || (trunk.Some? && (trunk.value !in trunks || trunks[trunk.value].configurationId != config))
      ensures configurations == old(configurations) && trunks == old(trunks)
      ensures response != Done ==> numbers == old(numbers)
      ensures response == Done ==> address.Some? && providerAccepts
      ensures response == Conflict <==>
        && response != NotFound && address.Some?
        && (!NoConflict(registry, old(Tables()), configurations[config].provider, configurations[config].credentials,
                        {address.value}, None, None)
            || (providerAccepts && exists id :: id in old(numbers) && old(numbers)[id].organizationId == org
                                                && old(numbers)[id].address == address.value))
      ensures response == Done ==> old(nextId) in numbers
      ensures response == Done ==>
        numbers[old(nextId)] == PhoneNumber(org, config, address.value, trunk, isActive, isDefault)
      ensures response == Done ==> forall id :: id in old(numbers) && id != old(nextId) ==>
        id in numbers
        && numbers[id] == if isDefault && old(numbers)[id].configurationId == config
                          then old(numbers)[id].(isDefaultCallerId := false) else old(numbers)[id]
    {
      if config !in configurations || configurations[config].organizationId != org {
        return NotFound;
      }
      if trunk.Some? && (trunk.value !in trunks || trunks[trunk.value].configurationId != config) {
        return NotFound;
      }
      if address.None? {
        return BadRequest;
      }
      var cfg := configurations[config];
      var ok := AssertNoInboundRoutingConflict(cfg.provider, cfg.credentials, {address.value}, None, None);
      if !ok {
        return Conflict;
      }
      if !providerAccepts {
        return BadRequest;
      }
      var before := numbers;
      if isDefault {
        ClearDefaultCallerId(config);
      }
      if AddressTaken(Tables(), org, address.value) {
        numbers := before;  // rollback
        assert AddressTaken(old(Tables()), org, address.value);
        return Conflict;
      }
      assert forall id :: id in before ==> id in numbers && numbers[id].organizationId == before[id].organizationId
                                           && numbers[id].address == before[id].address;
      assert !AddressTaken(old(Tables()), org, address.value);
      numbers := numbers[nextId := PhoneNumber(org, config, address.value, trunk, isActive, isDefault)];
      nextId := nextId + 1;
      return Done;
    }

    method UpdatePhoneNumber(org: int, config: nat, number: nat, trunk: Option<nat>, clearTrunk: bool,
                             active: Option<bool>)
      returns (response: Response)
      modifies this
      ensures var r := UpdateNumber(org, config, number, trunk, clearTrunk, active);
        response == Answer(registry, old(Tables()), r) && Tables() == Apply(registry, old(Tables()), r)
      ensures response == NotFound <==>
        || config !in configurations || configurations[config].organizationId != org
        || number !in old(numbers) || old(numbers)[number].configurationId != config
        || (trunk.Some? && (trunk.value !in trunks || trunks[trunk.value].configurationId != config))
      ensures response in {Done, NotFound} && configurations == old(configurations) && trunks == old(trunks)
      ensures response == NotFound ==> numbers == old(numbers)
      // a trunk given is set, else clearing clears it; the activation changes when given
      ensures response == Done ==>
        var was := old(numbers)[number];
        && number in numbers && numbers == old(numbers)[number := numbers[number]]
        && numbers[number] == was.(trunkId := numbers[number].trunkId, isActive := numbers[number].isActive)
        && (trunk.Some? ==> numbers[number].trunkId == trunk)
        && (trunk.None? && clearTrunk ==> numbers[number].trunkId == None)
        && (trunk.None? && !clearTrunk ==> numbers[number].trunkId == was.trunkId)
        && (active.Some? ==> numbers[number].isActive == active.value)
        && (active.None? ==> numbers[number].isActive == was.isActive)
    {
      if config !in configurations || configurations[config].organizationId != org {
        return NotFound;
      }
      if number !in numbers || numbers[number].configurationId != config {
        return NotFound;
      }
      if trunk.Some? && (trunk.value !in trunks || trunks[trunk.value].configurationId != config) {
        return NotFound;
      }
      var row := numbers[number];
      if trunk.Some? {
        row := row.(trunkId := trunk);
      } else if clearTrunk {
        row := row.(trunkId := None);
      }
      if active.Some? {
        row := row.(isActive := active.value);
      }
      numbers := numbers[number := row];
      return Done;
    }

    method SetDefaultCallerId(org: int, config: nat, number: nat) returns (response: Response)
      modifies this
      ensures response == Answer(registry, old(Tables()), SetDefaultCaller(org, config, number))
      ensures Tables() == Apply(registry, old(Tables()), SetDefaultCaller(org, config, number))
      ensures response == Done <==>
        && config in configurations && configurations[config].organizationId == org
        && number in old(numbers) && old(numbers)[number].configurationId == config
      ensures response in {Done, NotFound} && configurations == old(configurations) && trunks == old(trunks)
      ensures numbers.Keys == old(numbers).Keys
      ensures forall id :: id in numbers ==>
        numbers[id] == if response == Done && old(numbers)[id].configurationId == config
                       then old(numbers)[id].(isDefaultCallerId := id == number) else old(numbers)[id]
    {
      if config !in configurations || configurations[config].organizationId != org {
        return NotFound;
      }
      if number !in numbers || numbers[number].configurationId != config {
        return NotFound;
      }
      ClearDefaultCallerId(config);
      numbers := numbers[number := numbers[number].(isDefaultCallerId := true)];
      return Done;
    }

    /** The lookup takes the first matching row; in a reachable state there is only one. */
    method FindInboundRouteByAccount(provider: string, field: string, account: string, address: string,
                                     org: Option<int>)
      returns (route: Option<nat>)
      ensures route.Some? ==> InboundMatch(Tables(), route.value, provider, field, account, address, org)
      // an active number of an active configuration with that account, in the organization if one is given
      ensures forall id :: InboundMatch(Tables(), id, provider, field, account, address, org) <==>
        && id in numbers && numbers[id].configurationId in configurations
        && var c := configurations[numbers[id].configurationId];
           && numbers[id].isActive && numbers[id].address == address && !c.inactive && c.provider == provider
           && field in c.credentials && c.credentials[field] == account && org in {None, Some(c.organizationId)}
      ensures provider != "" && field != "" && account != "" && address != "" && route.None? ==>
        forall id :: !InboundMatch(Tables(), id, provider, field, account, address, org)
    {
      if provider == "" || field == "" || account == "" || address == "" {
        return None;
      }
      if id :| id in numbers && InboundMatch(Tables(), id, provider, field, account, address, org) {
        return Some(id);
      }
      return None;
    }
  }
}
