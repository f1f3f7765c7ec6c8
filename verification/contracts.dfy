/** The contract and addendum engine: contracts of the two kinds, addenda
    (dated lists of billed services) bound to at most one contract, and the
    selection of a contract's current addendum. */
module Contracts {
  import opened Common
  import Services

  datatype ContractKind = RegularKind | BusinessKind
  datatype Status = Active | Suspended
  datatype DurationType = Expirable | NonExpirable

  /** A regular or business contract. Its kind stands for its concrete class. */
  datatype Contract = Contract(
    id: Id,
    kind: ContractKind,
    approvalDate: Timestamp,
    terminationDate: Option<Timestamp>,
    terminationDelay: nat,
    payTerm: nat,
    status: Status,
    durationType: DurationType)
  {
    function Ref(): ContractRef {
      ContractRef(kind, id)
    }
  }

  /** What an addendum's foreign key designates: a contract of one kind. */
  datatype ContractRef = ContractRef(kind: ContractKind, id: Id)

  /** The stored row of an addendum. */
  datatype AddendumRecord = AddendumRecord(
    created: Timestamp,
    services: set<Services.ServiceId>,
    regularContract: Option<Id>,
    businessContract: Option<Id>)

  /** The addendum is among the contract's addenda: its foreign key of the
      contract's kind designates the contract. */
  predicate BoundTo(a: AddendumRecord, c: ContractRef) {
    if c.kind == RegularKind then a.regularContract == Some(c.id)
    else a.businessContract == Some(c.id)
  }

  /** The row of an addendum created at `created`, listing `services` and
      bound to `c` through the foreign key of `c`'s kind only. */
  function RecordBoundTo(created: Timestamp, services: set<Services.ServiceId>, c: ContractRef): (r: AddendumRecord)
    ensures BoundTo(r, c) && r.created == created && r.services == services
    ensures r.regularContract.None? || r.businessContract.None?
  {
    if c.kind == RegularKind then AddendumRecord(created, services, Some(c.id), None)
    else AddendumRecord(created, services, None, Some(c.id))
  }

  /** The ids of the addenda of a contract. */
  function AddendaOf(addenda: map<Id, AddendumRecord>, c: ContractRef): (r: set<Id>)
    ensures forall k :: k in r <==> k in addenda && BoundTo(addenda[k], c)
  {
    set k | k in addenda && BoundTo(addenda[k], c)
  }

  /** The id among `keys` of an addendum created last; none when `keys` is
      empty. Among addenda created at the same instant, which one is chosen is
      left unspecified. */
  function LatestIn(addenda: map<Id, AddendumRecord>, keys: set<Id>): (r: Option<Id>)
    requires keys <= addenda.Keys
    ensures r.None? <==> keys == {}
    ensures r.Some? ==> r.value in keys
    ensures r.Some? ==> forall k :: k in keys ==> addenda[k].created <= addenda[r.value].created
    decreases |keys|
  {
    if keys == {} then None
    else
      var k := Least(keys);
      var rest := LatestIn(addenda, keys - {k});
      if rest.None? || addenda[rest.value].created < addenda[k].created then Some(k)
      else rest
  }

  /** The current addendum of a contract: one of its addenda with the latest
      creation instant. A contract without addenda has none. */
  function CurrentAddendum(addenda: map<Id, AddendumRecord>, c: ContractRef): (r: Result<Id>)
    ensures r.Err? <==> AddendaOf(addenda, c) == {}
    ensures r.Err? ==> r.error == NoAddendum
    ensures r.Ok? ==> r.value in addenda && BoundTo(addenda[r.value], c)
    ensures r.Ok? ==> forall k :: k in addenda && BoundTo(addenda[k], c) ==>
                                   addenda[k].created <= addenda[r.value].created
  {
    match LatestIn(addenda, AddendaOf(addenda, c))
    case None => Err(NoAddendum)
    case Some(k) => Ok(k)
  }

  /** A contract with addenda created at T1 < T2 < T3 (and an addendum of
      another contract created later still) has the T3 addendum as current. */
  lemma CurrentAddendumScenario(c: ContractRef, other: ContractRef, t1: Timestamp, t2: Timestamp, t3: Timestamp)
    requires c.kind == RegularKind && other.kind == BusinessKind
    requires t1 < t2 < t3
    ensures var addenda := map[1 := AddendumRecord(t2, {}, Some(c.id), None),
                               2 := AddendumRecord(t3, {}, Some(c.id), None),
                               3 := AddendumRecord(t1, {}, Some(c.id), None),
                               4 := AddendumRecord(t3 + 1, {}, None, Some(other.id))];
            CurrentAddendum(addenda, c) == Ok(2)
  {
    var addenda := map[1 := AddendumRecord(t2, {}, Some(c.id), None),
                       2 := AddendumRecord(t3, {}, Some(c.id), None),
                       3 := AddendumRecord(t1, {}, Some(c.id), None),
                       4 := AddendumRecord(t3 + 1, {}, None, Some(other.id))];
    assert BoundTo(addenda[2], c) && !BoundTo(addenda[4], c);
  }

  /** An addendum as an object whose contract binding is assigned in place. */
  class Addendum {
    const id: Id
    var created: Timestamp
    var services: set<Services.ServiceId>
    var regularContract: Option<Id>
    var businessContract: Option<Id>

    constructor (id: Id, created: Timestamp, services: set<Services.ServiceId>)
      ensures this.id == id && this.created == created && this.services == services
      ensures regularContract.None? && businessContract.None?
    {
      this.id := id;
      this.created := created;
      this.services := services;
      regularContract := None;
      businessContract := None;
    }

    /** The row this addendum is stored as. */
    function Record(): AddendumRecord
      reads this
    {
      AddendumRecord(created, services, regularContract, businessContract)
    }

    /** Model validation: an addendum may not belong to a regular and a
        business contract at once. */
    function Clean(): (r: Outcome)
      reads this
      ensures r.Fail? <==> regularContract.Some? && businessContract.Some?
      ensures r.Fail? ==> r.error == DualAssignment
    {
      if regularContract.Some? && businessContract.Some? then Fail(DualAssignment) else Pass
    }

    /** The `contract` setter: binds the addendum to `c`, through the foreign
        key of `c`'s kind, only while it has no contract at all. */
    method SetContract(c: Contract) returns (r: Outcome)
      modifies this`regularContract, this`businessContract
      ensures r.Pass? <==> old(regularContract).None? && old(businessContract).None?
      ensures r.Fail? ==> r.error == AlreadyAssigned
      ensures r.Fail? ==> regularContract == old(regularContract) && businessContract == old(businessContract)
      ensures r.Pass? ==>
                regularContract == (if c.kind == RegularKind then Some(c.id) else None) &&
                businessContract == (if c.kind == BusinessKind then Some(c.id) else None)
      ensures r.Pass? ==> Clean().Pass? && BoundTo(Record(), c.Ref()) && Contract() == Some(c.Ref())
    {
      if regularContract.None? && businessContract.None? {
        if c.kind == RegularKind {
          regularContract := Some(c.id);
        } else {
          businessContract := Some(c.id);
        }
        r := Pass;
      } else {
        r := Fail(AlreadyAssigned);
      }
    }

    /** The `contract` getter as written: it tests whether the regular foreign
        key attribute exists, which it always does (a nullable key reads as
        nothing), so it always answers with the regular contract. */
    function ContractAsWritten(): (r: Option<ContractRef>)
      reads this
      ensures r.Some? ==> r.value.kind == RegularKind
      ensures regularContract.Some? ==> r == Some(ContractRef(RegularKind, regularContract.value))
      ensures businessContract.Some? && regularContract.None? ==> r.None?
      ensures r == Contract() <==> !(regularContract.None? && businessContract.Some?)
    {
      match regularContract
      case Some(k) => Some(ContractRef(RegularKind, k))
      case None => None
    }

    /** The `contract` getter as intended: the contract the addendum is bound
        to, whichever of the two foreign keys holds it. */
    function Contract(): (r: Option<ContractRef>)
      reads this
      ensures r.None? <==> regularContract.None? && businessContract.None?
      ensures regularContract.Some? ==> r == Some(ContractRef(RegularKind, regularContract.value))
      ensures regularContract.None? && businessContract.Some? ==>
                r == Some(ContractRef(BusinessKind, businessContract.value))
      ensures Clean().Pass? && r.Some? ==> BoundTo(Record(), r.value)
    {
      match regularContract
      case Some(k) => Some(ContractRef(RegularKind, k))
      case None =>
        match businessContract
        case Some(k) => Some(ContractRef(BusinessKind, k))
        case None => None
    }
  }

  /** The getter as written loses the binding of an addendum to a business
      contract, which the intended getter returns. */
  method BusinessBindingScenario(c: Contract) returns (a: Addendum)
    requires c.kind == BusinessKind
    ensures a.Contract() == Some(c.Ref())
    ensures a.ContractAsWritten() == None
  {
    a := new Addendum(1, 0, {});
    var r := a.SetContract(c);
    assert r.Pass?;
  }
}
